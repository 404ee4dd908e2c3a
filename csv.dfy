/** The CSV text both admin exports build: the header cells joined with ',' on
    the first line, then one line per row whose cells are each wrapped in double
    quotes (embedded quotes are not escaped) and joined with ','. Every line,
    the last included, ends in '\n'. */
module Csv {
  import opened Seqs
  import opened Text

  /** `"${cell}"`. */
  function Quote(cell: string): string
  {
    "\"" + cell + "\""
  }

  /** `row.map(cell => `"${cell}"`).join(',')`. */
  function RowText(cells: seq<string>): string
  {
    Join(Map(cells, Quote), ',')
  }

  /** Each part followed by the separator. */
  function Terminated(parts: seq<string>, d: char): string
  {
    if parts == [] then "" else parts[0] + [d] + Terminated(parts[1..], d)
  }

  /** The text the export returns for these cells. */
  function Document(header: seq<string>, rows: seq<seq<string>>): string
  {
    Join(header, ',') + "\n" + Terminated(Map(rows, RowText), '\n')
  }

  lemma {:induction false} TerminatedAppend(parts: seq<string>, x: string, d: char)
    ensures Terminated(parts + [x], d) == Terminated(parts, d) + x + [d]
  {
    if parts == [] {
      assert [x][1..] == [];
    } else {
      assert (parts + [x])[1..] == parts[1..] + [x];
      TerminatedAppend(parts[1..], x, d);
    }
  }

  lemma MapPrefix<A, B>(s: seq<A>, f: A -> B, i: nat)
    requires i < |s|
    ensures Map(s[..i + 1], f) == Map(s[..i], f) + [f(s[i])]
  {
  }

  /** `let csv = headers.join(',') + '\n'; rows.forEach(row => { csv += … + '\n' })`. */
  method Build(header: seq<string>, rows: seq<seq<string>>) returns (csv: string)
    ensures csv == Document(header, rows)
  {
    csv := Join(header, ',') + "\n";
    for i := 0 to |rows|
      invariant csv == Join(header, ',') + "\n" + Terminated(Map(rows[..i], RowText), '\n')
    {
      MapPrefix(rows, RowText, i);
      TerminatedAppend(Map(rows[..i], RowText), RowText(rows[i]), '\n');
      csv := csv + RowText(rows[i]) + "\n";
    }
    assert rows[..|rows|] == rows;
  }

  /** Terminating every part is joining them with one empty part appended. */
  lemma {:induction false} TerminatedIsJoin(parts: seq<string>, d: char)
    ensures Terminated(parts, d) == Join(parts + [""], d)
  {
    if parts != [] {
      assert (parts + [""])[1..] == parts[1..] + [""];
      TerminatedIsJoin(parts[1..], d);
    }
  }

  /** A join adds no character other than the separator. */
  lemma {:induction false} JoinFree(parts: seq<string>, d: char, c: char)
    requires c != d
    requires forall i :: 0 <= i < |parts| ==> c !in parts[i]
    ensures c !in Join(parts, d)
  {
    if |parts| > 1 {
      JoinFree(parts[1..], d, c);
    }
  }

  predicate NoNewline(cells: seq<string>)
  {
    forall k :: 0 <= k < |cells| ==> '\n' !in cells[k]
  }

  lemma RowTextNoNewline(cells: seq<string>)
    requires NoNewline(cells)
    ensures '\n' !in RowText(cells)
  {
    var quoted := Map(cells, Quote);
    forall k | 0 <= k < |quoted|
      ensures '\n' !in quoted[k]
    {
      assert quoted[k] == "\"" + cells[k] + "\"";
    }
    JoinFree(quoted, ',', '\n');
  }

  /** With no line break inside a cell, the text splits into the header line,
      one line per row in order, and the empty rest after the final '\n': the
      document has exactly |rows| + 1 lines. */
  lemma DocumentLines(header: seq<string>, rows: seq<seq<string>>)
    requires NoNewline(header)
    requires forall r :: 0 <= r < |rows| ==> NoNewline(rows[r])
    ensures Split(Document(header, rows), '\n') == [Join(header, ',')] + Map(rows, RowText) + [""]
    ensures |Split(Document(header, rows), '\n')| == |rows| + 2
  {
    var lines := Map(rows, RowText);
    var parts := [Join(header, ',')] + lines + [""];
    JoinFree(header, ',', '\n');
    forall r | 0 <= r < |rows|
      ensures '\n' !in lines[r]
    {
      RowTextNoNewline(rows[r]);
    }
    TerminatedIsJoin([Join(header, ',')] + lines, '\n');
    assert ([Join(header, ',')] + lines)[1..] == lines;
    assert Document(header, rows) == Join(parts, '\n');
    SplitJoin(parts, '\n');
  }

  /** The text between the quotes of one cell. */
  function Unquote(s: string): string
  {
    if |s| >= 2 then s[1..|s| - 1] else s
  }

  /** Round trip of one line: while no cell holds a ',', splitting the line on
      ',' and removing the quotes gives back the cells. */
  lemma RowTextCells(cells: seq<string>)
    requires |cells| >= 1
    requires forall k :: 0 <= k < |cells| ==> ',' !in cells[k]
    ensures Map(Split(RowText(cells), ','), Unquote) == cells
  {
    var quoted := Map(cells, Quote);
    forall k | 0 <= k < |quoted|
      ensures ',' !in quoted[k] && Unquote(quoted[k]) == cells[k]
    {
      assert quoted[k] == "\"" + cells[k] + "\"";
    }
    SplitJoin(quoted, ',');
  }
}
