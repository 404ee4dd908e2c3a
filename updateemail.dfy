/** POST /api/admin/update-email: move every order of one address to another.
    Both addresses must contain '@' and differ other than in letter case; the
    store is then called with both lower-cased. */
module UpdateEmailRoute {
  import opened Wrappers
  import opened Seqs
  import opened Text
  import opened Store

  datatype Reply = Renamed(updatedCount: nat) | Status(code: nat, error: string)

  const OldRequired := "Valid old email address is required"
  const NewRequired := "Valid new email address is required"
  const SameAddress := "New email must be different from old email"
  const NotFoundPrefix := "No orders found with email: "

  /** An address the route accepts: present, non-empty and holding '@'. */
  predicate Usable(email: Option<string>)
  {
    email.Some? && '@' in email.value
  }

  /** What the route decides before it calls the store. */
  datatype Plan = Refuse(code: nat, error: string) | Rename(from: string, to: string)

  /** The three 400 checks, in the source's order, with `toLower` for
      `toLowerCase`. */
  function Decide(toLower: string -> string, oldEmail: Option<string>, newEmail: Option<string>): (p: Plan)
    ensures !Usable(oldEmail) ==> p == Refuse(400, OldRequired)
    ensures Usable(oldEmail) && !Usable(newEmail) ==> p == Refuse(400, NewRequired)
    ensures p.Rename? <==>
      Usable(oldEmail) && Usable(newEmail) && toLower(oldEmail.value) != toLower(newEmail.value)
    ensures p.Rename? ==> p.from == toLower(oldEmail.value) && p.to == toLower(newEmail.value)
    ensures p.Refuse? ==> p.code == 400
  {
    if !Usable(oldEmail) then Refuse(400, OldRequired)
    else if !Usable(newEmail) then Refuse(400, NewRequired)
    else if toLower(oldEmail.value) == toLower(newEmail.value) then Refuse(400, SameAddress)
    else Rename(toLower(oldEmail.value), toLower(newEmail.value))
  }

  /** POST /api/admin/update-email. The 404 message quotes the address as it
      was sent, before lower-casing. */
  method UpdateEmail(db: Db, toLower: string -> string, oldEmail: Option<string>, newEmail: Option<string>) returns (reply: Reply)
    requires db.Valid()
    modifies db
    ensures db.Valid()
    ensures db.downloads == old(db.downloads) && db.nextOrderId == old(db.nextOrderId)
    ensures match Decide(toLower, oldEmail, newEmail)
      case Refuse(code, error) => reply == Status(code, error) && db.orders == old(db.orders)
      case Rename(a, b) =>
        var n := Count(old(db.orders), EmailIs(toLower, a));
        && db.orders == WithEmail(old(db.orders), toLower, a, b)
        && reply == (if n == 0 then Status(404, NotFoundPrefix + oldEmail.value) else Renamed(n))
  {
    var plan := Decide(toLower, oldEmail, newEmail);
    if plan.Refuse? {
      return Status(plan.code, plan.error);
    }
    var count := db.UpdateOrderEmail(toLower, plan.from, plan.to);
    if count == 0 {
      return Status(404, NotFoundPrefix + oldEmail.value);
    }
    reply := Renamed(count);
  }

  lemma WithEmailTail(rows: seq<OrderRow>, toLower: string -> string, a: string, b: string)
    requires rows != []
    ensures WithEmail(rows, toLower, a, b)[1..] == WithEmail(rows[1..], toLower, a, b)
  {
  }

  /** Lower-casing keeps the '@', so the addresses the store receives still pass
      the route's own check, and they are already lower case. */
  lemma RenamedAddressesUsable(toLower: string -> string, oldEmail: Option<string>, newEmail: Option<string>)
    requires IsLowerCasing(toLower)
    requires Decide(toLower, oldEmail, newEmail).Rename?
    ensures '@' in Decide(toLower, oldEmail, newEmail).from && '@' in Decide(toLower, oldEmail, newEmail).to
    ensures Decide(toLower, oldEmail, newEmail).from != Decide(toLower, oldEmail, newEmail).to
    ensures toLower(Decide(toLower, oldEmail, newEmail).from) == Decide(toLower, oldEmail, newEmail).from
    ensures toLower(Decide(toLower, oldEmail, newEmail).to) == Decide(toLower, oldEmail, newEmail).to
  {
    var p := Decide(toLower, oldEmail, newEmail);
    assert toLower(toLower(oldEmail.value)) == toLower(oldEmail.value);
    assert toLower(toLower(newEmail.value)) == toLower(newEmail.value);
    assert '@' in toLower(oldEmail.value) && '@' in toLower(newEmail.value);
  }

  /** After a rename to an address that is already lower case, no order is
      left under the old address in any letter case. */
  lemma {:induction false} RenameClearsOldAddress(rows: seq<OrderRow>, toLower: string -> string, a: string, b: string)
    requires a != b && toLower(b) == b
    ensures Count(WithEmail(rows, toLower, a, b), EmailIs(toLower, a)) == 0
    decreases |rows|
  {
    if rows != [] {
      WithEmailTail(rows, toLower, a, b);
      RenameClearsOldAddress(rows[1..], toLower, a, b);
    }
  }

  /** Every order of the old address, in whatever case it was typed, moves to
      the new one; none is lost or duplicated. */
  lemma {:induction false} RenameMovesOrders(rows: seq<OrderRow>, toLower: string -> string, a: string, b: string)
    requires a != b && toLower(b) == b
    ensures Count(WithEmail(rows, toLower, a, b), EmailIs(toLower, b)) == Count(rows, EmailIs(toLower, a)) + Count(rows, EmailIs(toLower, b))
    decreases |rows|
  {
    if rows != [] {
      WithEmailTail(rows, toLower, a, b);
      RenameMovesOrders(rows[1..], toLower, a, b);
    }
  }

  /** When no order carries the old address the UPDATE changes nothing. */
  lemma {:induction false} NothingToRename(rows: seq<OrderRow>, toLower: string -> string, a: string, b: string)
    requires Count(rows, EmailIs(toLower, a)) == 0
    ensures WithEmail(rows, toLower, a, b) == rows
    decreases |rows|
  {
    if rows != [] {
      WithEmailTail(rows, toLower, a, b);
      NothingToRename(rows[1..], toLower, a, b);
      assert WithEmail(rows, toLower, a, b) == [WithEmail(rows, toLower, a, b)[0]] + WithEmail(rows, toLower, a, b)[1..];
    }
  }

  /** Sending the same accepted request twice: the second finds no order under
      the old address, so it answers 404. */
  lemma RepeatedRenameNotFound(rows: seq<OrderRow>, toLower: string -> string, oldEmail: Option<string>, newEmail: Option<string>, a: string, b: string)
    requires IsLowerCasing(toLower)
    requires Decide(toLower, oldEmail, newEmail) == Rename(a, b)
    ensures Count(WithEmail(rows, toLower, a, b), EmailIs(toLower, a)) == 0
  {
    RenamedAddressesUsable(toLower, oldEmail, newEmail);
    RenameClearsOldAddress(rows, toLower, a, b);
  }
}
