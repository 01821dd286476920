/** What the listing order and the live filter do: same rows, one possible order. */
module AutoMessageListing {
  import opened Prelude
  import opened AutoMessageRows

  ghost predicate DistinctIds(items: seq<Item>) {
    forall i, j :: 0 <= i < j < |items| ==> items[i].id != items[j].id
  }

  ghost predicate StrictlyOrdered(items: seq<Item>) {
    forall i, j :: 0 <= i < j < |items| ==> Before(items[i], items[j])
  }

  ghost predicate SameItems(a: seq<Item>, b: seq<Item>) {
    forall x :: x in a <==> x in b
  }

  lemma {:induction false} InsertKeepsItems(item: Item, ordered: seq<Item>)
    ensures |Insert(item, ordered)| == |ordered| + 1
    ensures forall x :: x in Insert(item, ordered) <==> x in ordered || x == item
  {
    if ordered != [] {
      assert ordered == Init(ordered) + [Last(ordered)];
      InsertKeepsItems(item, Init(ordered));
    }
  }

  lemma {:induction false} OrderedKeepsItems(items: seq<Item>)
    ensures |Ordered(items)| == |items| && SameItems(Ordered(items), items)
  {
    if items != [] {
      assert items == Init(items) + [Last(items)];
      OrderedKeepsItems(Init(items));
      InsertKeepsItems(Last(items), Ordered(Init(items)));
    }
  }

  lemma {:induction false} InsertKeepsOrder(item: Item, ordered: seq<Item>)
    requires StrictlyOrdered(ordered)
    requires forall x :: x in ordered ==> x.id != item.id
    ensures StrictlyOrdered(Insert(item, ordered))
  {
    if ordered != [] && Before(item, Last(ordered)) {
      var rest := Init(ordered);
      InsertKeepsOrder(item, rest);
      InsertKeepsItems(item, rest);
      var r := Insert(item, rest);
      forall i | 0 <= i < |r| ensures Before(r[i], Last(ordered)) {
        assert r[i] in r;
      }
    } else if ordered != [] {
      assert Last(ordered) in ordered;
      assert Before(Last(ordered), item);
      forall i | 0 <= i < |ordered| ensures Before(ordered[i], item) {
      }
    }
  }

  lemma {:induction false} OrderedIsStrict(items: seq<Item>)
    requires DistinctIds(items)
    ensures StrictlyOrdered(Ordered(items))
  {
    if items != [] {
      OrderedIsStrict(Init(items));
      OrderedKeepsItems(Init(items));
      InsertKeepsOrder(Last(items), Ordered(Init(items)));
    }
  }

  lemma {:induction false} LastIsGreatest(items: seq<Item>, x: Item)
    requires StrictlyOrdered(items) && x in items
    ensures x == Last(items) || Before(x, Last(items))
    ensures x in Init(items) <==> x != Last(items)
  {
    var i :| 0 <= i < |items| && items[i] == x;
    if i < |items| - 1 {
      assert Init(items)[i] == x;
    }
  }

  /** Items can be listed in one order only. */
  lemma {:induction false} OrderIsUnique(a: seq<Item>, b: seq<Item>)
    requires StrictlyOrdered(a) && StrictlyOrdered(b) && SameItems(a, b)
    ensures a == b
  {
    assert a != [] ==> a[0] in b;
    assert b != [] ==> b[0] in a;
    if a != [] {
      assert Last(a) in b && Last(b) in a;
      LastIsGreatest(a, Last(b));
      LastIsGreatest(b, Last(a));
      forall x ensures x in Init(a) <==> x in Init(b) {
        if x in a {
          LastIsGreatest(a, x);
          LastIsGreatest(b, x);
        }
        assert x in Init(a) ==> x in a;
        assert x in Init(b) ==> x in b;
      }
      OrderIsUnique(Init(a), Init(b));
      assert a == Init(a) + [Last(a)] && b == Init(b) + [Last(b)];
    }
  }

  lemma {:induction false} LiveKeepsLiveItems(items: seq<Item>)
    ensures forall x :: x in Live(items) <==> x in items && !x.deleted
    ensures DistinctIds(items) ==> DistinctIds(Live(items))
    ensures |Live(items)| <= |items|
  {
    if items != [] {
      assert items == Init(items) + [Last(items)];
      LiveKeepsLiveItems(Init(items));
    }
  }

  /** A sequence in listing order that holds exactly the live rows is the listing. */
  lemma {:induction false} ListingOfLive(items: seq<Item>, listing: seq<Item>)
    requires DistinctIds(items) && StrictlyOrdered(listing)
    requires forall x :: x in listing <==> x in items && !x.deleted
    ensures ListItems(items, false) == listing
  {
    LiveKeepsLiveItems(items);
    OrderedKeepsItems(Live(items));
    OrderedIsStrict(Live(items));
    OrderIsUnique(Ordered(Live(items)), listing);
  }

  lemma {:induction false} ListingIsStrict(items: seq<Item>, includeDeleted: bool)
    requires DistinctIds(items)
    ensures StrictlyOrdered(ListItems(items, includeDeleted))
    ensures forall x :: x in ListItems(items, includeDeleted) <==> x in items && (includeDeleted || !x.deleted)
    ensures |ListItems(items, includeDeleted)| == if includeDeleted then |items| else |Live(items)|
  {
    LiveKeepsLiveItems(items);
    OrderedKeepsItems(Live(items));
    OrderedIsStrict(Live(items));
    OrderedKeepsItems(items);
    OrderedIsStrict(items);
  }

  lemma {:induction false} StoredMeansMember(items: seq<Item>, id: int)
    ensures Stored(items, id) <==> exists x :: x in items && x.id == id
  {
    if Stored(items, id) {
      var i :| 0 <= i < |items| && items[i].id == id;
      assert items[i] in items;
    }
    if x :| x in items && x.id == id {
      var i :| 0 <= i < |items| && items[i] == x;
    }
  }

  /** The full listing stores the same ids as the table. */
  lemma {:induction false} StoredInListing(items: seq<Item>, id: int)
    ensures Stored(ListItems(items, true), id) <==> Stored(items, id)
  {
    OrderedKeepsItems(items);
    StoredMeansMember(ListItems(items, true), id);
    StoredMeansMember(items, id);
  }

  lemma {:induction false} EnabledKeepsEnabledItems(items: seq<Item>)
    ensures forall x :: x in Enabled(items) <==> x in items && x.enabled
    ensures |Enabled(items)| <= |items|
  {
    if items != [] {
      assert items == Init(items) + [Last(items)];
      EnabledKeepsEnabledItems(Init(items));
    }
  }
}
