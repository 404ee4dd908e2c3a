/** The shopping cart of the storefront page: the `cartItems` state and its
    four handlers. The cart holds each plugin id at most once. */
module Cart {
  import opened Seqs

  /** A plugin of the catalogue, by the fields the handlers look at. */
  datatype Item = Item(id: string, name: string)

  const BundleId := "bundle"

  /** The plugins the bundle contains, which switching to it removes. */
  const PaidIds: seq<string> := ["1", "3", "4", "5"]

  predicate HasId(items: seq<Item>, id: string)
  {
    exists i :: 0 <= i < |items| && items[i].id == id
  }

  predicate IdsUnique(items: seq<Item>)
  {
    forall i, j :: 0 <= i < j < |items| ==> items[i].id != items[j].id
  }

  function NotWithId(id: string): Item -> bool
  {
    (x: Item) => x.id != id
  }

  function NotPaid(x: Item): bool
  {
    x.id !in PaidIds
  }

  /** `[...cartItems, plugin]` unless an item with that id is already there. */
  function Added(items: seq<Item>, p: Item): seq<Item>
  {
    if HasId(items, p.id) then items else items + [p]
  }

  /** `cartItems.filter(item => item.id !== pluginId)`. */
  function Removed(items: seq<Item>, id: string): seq<Item>
  {
    Filter(items, NotWithId(id))
  }

  /** The paid plugins filtered out, then the bundle pushed unless the cart
      still holds one. */
  function Switched(items: seq<Item>, bundle: Item): seq<Item>
  {
    var rest := Filter(items, NotPaid);
    if HasId(rest, BundleId) then rest else rest + [bundle]
  }

  class CartState {
    var items: seq<Item>
    /** The "added to cart" notice. */
    var addedNoticeOpen: bool

    ghost predicate Valid()
      reads this
    {
      IdsUnique(items)
    }

    constructor ()
      ensures Valid() && items == [] && !addedNoticeOpen
    {
      items := [];
      addedNoticeOpen := false;
    }

    /** handleAddToCart: the notice opens whether or not the plugin was new. */
    method Add(p: Item)
      requires Valid()
      modifies this
      ensures Valid()
      ensures items == Added(old(items), p) && addedNoticeOpen
    {
      if !HasId(items, p.id) {
        AppendNewKeepsUnique(items, p);
        items := items + [p];
      }
      addedNoticeOpen := true;
    }

    /** handleRemoveFromCart. */
    method Remove(id: string)
      requires Valid()
      modifies this
      ensures Valid()
      ensures items == Removed(old(items), id) && addedNoticeOpen == old(addedNoticeOpen)
    {
      FilterKeepsUnique(items, NotWithId(id));
      items := Filter(items, NotWithId(id));
    }

    /** handleClearCart. */
    method Clear()
      modifies this
      ensures Valid()
      ensures items == [] && addedNoticeOpen == old(addedNoticeOpen)
    {
      items := [];
    }

    /** handleSwitchToBundle, for the catalogue's bundle (id "bundle"). */
    method SwitchToBundle(bundle: Item)
      requires Valid() && bundle.id == BundleId
      modifies this
      ensures Valid()
      ensures items == Switched(old(items), bundle) && addedNoticeOpen == old(addedNoticeOpen)
    {
      SwitchedKeepsUnique(items, bundle);
      var newCart := Filter(items, NotPaid);
      if !HasId(newCart, BundleId) {
        newCart := newCart + [bundle];
      }
      items := newCart;
    }
  }

  /** Appending an item whose id is absent keeps the ids unique. */
  lemma AppendNewKeepsUnique(items: seq<Item>, p: Item)
    requires IdsUnique(items) && !HasId(items, p.id)
    ensures IdsUnique(items + [p])
  {
    var r := items + [p];
    forall i, j | 0 <= i < j < |r|
      ensures r[i].id != r[j].id
    {
      if j == |items| {
        assert r[i] == items[i];
      }
    }
  }

  lemma TailKeepsUnique(items: seq<Item>)
    requires IdsUnique(items) && items != []
    ensures IdsUnique(items[1..])
  {
    forall i, j | 0 <= i < j < |items[1..]|
      ensures items[1..][i].id != items[1..][j].id
    {
      assert items[1..][i] == items[i + 1] && items[1..][j] == items[j + 1];
    }
  }

  /** Putting in front an item whose id none of the others has keeps the ids
      unique. */
  lemma ConsKeepsUnique(h: Item, rest: seq<Item>)
    requires IdsUnique(rest)
    requires forall k :: 0 <= k < |rest| ==> rest[k].id != h.id
    ensures IdsUnique([h] + rest)
  {
    var r := [h] + rest;
    forall i, j | 0 <= i < j < |r|
      ensures r[i].id != r[j].id
    {
      if i > 0 {
        assert r[i] == rest[i - 1] && r[j] == rest[j - 1];
      } else {
        assert r[j] == rest[j - 1];
      }
    }
  }

  /** Filtering keeps the ids unique. */
  lemma {:induction false} FilterKeepsUnique(items: seq<Item>, p: Item -> bool)
    requires IdsUnique(items)
    ensures IdsUnique(Filter(items, p))
    decreases |items|
  {
    if items != [] {
      var rest := Filter(items[1..], p);
      TailKeepsUnique(items);
      FilterKeepsUnique(items[1..], p);
      if p(items[0]) {
        forall k | 0 <= k < |rest|
          ensures rest[k].id != items[0].id
        {
          var m :| 0 <= m < |items[1..]| && items[1..][m] == rest[k];
          assert items[m + 1] == rest[k];
        }
        ConsKeepsUnique(items[0], rest);
      }
    }
  }

  /** Every operation keeps each id at most once in the cart. */
  lemma AddedKeepsUnique(items: seq<Item>, p: Item)
    requires IdsUnique(items)
    ensures IdsUnique(Added(items, p))
  {
    if !HasId(items, p.id) {
      AppendNewKeepsUnique(items, p);
    }
  }

  lemma RemovedKeepsUnique(items: seq<Item>, id: string)
    requires IdsUnique(items)
    ensures IdsUnique(Removed(items, id))
  {
    FilterKeepsUnique(items, NotWithId(id));
  }

  lemma SwitchedKeepsUnique(items: seq<Item>, bundle: Item)
    requires IdsUnique(items) && bundle.id == BundleId
    ensures IdsUnique(Switched(items, bundle))
  {
    var rest := Filter(items, NotPaid);
    FilterKeepsUnique(items, NotPaid);
    if !HasId(rest, BundleId) {
      AppendNewKeepsUnique(rest, bundle);
    }
  }

  /** Adding a plugin already in the cart changes nothing; a new one goes to
      the end. Adding twice is adding once. */
  lemma AddedMeaning(items: seq<Item>, p: Item)
    ensures HasId(items, p.id) ==> Added(items, p) == items
    ensures !HasId(items, p.id) ==> Added(items, p) == items + [p]
    ensures Added(Added(items, p), p) == Added(items, p)
  {
    if !HasId(items, p.id) {
      var r := items + [p];
      assert r[|items|].id == p.id;
    }
  }

  /** Removing drops exactly the items with that id, and a second removal
      finds nothing more to drop. */
  lemma RemovedMeaning(items: seq<Item>, id: string)
    ensures forall x :: x in Removed(items, id) <==> x in items && x.id != id
    ensures !HasId(Removed(items, id), id)
    ensures Removed(Removed(items, id), id) == Removed(items, id)
  {
    var r := Removed(items, id);
    forall x
      ensures x in r <==> x in items && x.id != id
    {
      if x in items && x.id != id {
        var i :| 0 <= i < |items| && items[i] == x;
        assert NotWithId(id)(items[i]);
      }
    }
    FilterAll(r, NotWithId(id));
  }

  /** After the switch no bundled plugin remains, every other item stays, and
      the bundle is appended exactly when no bundle item was left. */
  lemma SwitchedMeaning(items: seq<Item>, bundle: Item)
    requires bundle.id == BundleId
    ensures var rest := Filter(items, NotPaid);
      && (HasId(rest, BundleId) <==> Switched(items, bundle) == rest)
      && (!HasId(rest, BundleId) <==> Switched(items, bundle) == rest + [bundle])
    ensures forall k :: 0 <= k < |Switched(items, bundle)| ==> Switched(items, bundle)[k].id !in PaidIds
    ensures forall x :: x in items && x.id !in PaidIds ==> x in Switched(items, bundle)
    ensures HasId(Switched(items, bundle), BundleId)
  {
    var rest := Filter(items, NotPaid);
    var r := Switched(items, bundle);
    if !HasId(rest, BundleId) {
      assert r[|rest|] == bundle;
      assert r != rest;
    } else {
      assert r != rest + [bundle] by {
        assert |r| == |rest|;
      }
    }
    forall x | x in items && x.id !in PaidIds
      ensures x in r
    {
      var i :| 0 <= i < |items| && items[i] == x;
      assert NotPaid(items[i]);
    }
    assert BundleId !in PaidIds;
  }
}
