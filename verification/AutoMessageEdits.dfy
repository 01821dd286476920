/** What saving a whole list and sorting it leave behind. */
module AutoMessageEdits {
  import opened Prelude
  import opened AutoMessageRows
  import opened AutoMessageListing

  // ---------- Saving: what each row becomes ----------

  predicate Names(inputs: seq<ItemInput>, id: int) {
    exists i :: 0 <= i < |inputs| && inputs[i].id == id && id > 0
  }

  /** A stored row after the first `k` inputs. */
  function RowAfter(row: Item, inputs: seq<ItemInput>, k: nat): (r: Item)
    requires k <= |inputs|
    ensures r.id == row.id && r.deleted == row.deleted
  {
    if k == 0 then row
    else
      var r := RowAfter(row, inputs, k - 1);
      var input := inputs[k - 1];
      if input.id > 0 && input.id == row.id && !row.deleted
      then r.(sortOrder := SortOrderOf(inputs, k - 1), content := input.content, enabled := input.enabled)
      else r
  }

  function ResolvedItem(inputs: seq<ItemInput>, ids: seq<int>, i: nat): Item
    requires i < |inputs| == |ids|
  {
    Item(if inputs[i].id > 0 then inputs[i].id else ids[i],
         SortOrderOf(inputs, i), inputs[i].content, inputs[i].enabled, false)
  }

  /** The list a caller asks for: the inputs, with an id for each new one. */
  function Resolved(inputs: seq<ItemInput>, ids: seq<int>): seq<Item>
    requires |inputs| == |ids|
  {
    seq(|inputs|, i requires 0 <= i < |inputs| => ResolvedItem(inputs, ids, i))
  }

  /** The rows inserted for the first `k` inputs. */
  function Inserted(inputs: seq<ItemInput>, ids: seq<int>, k: nat): seq<Item>
    requires k <= |inputs| == |ids|
  {
    if k == 0 then []
    else if inputs[k - 1].id > 0 then Inserted(inputs, ids, k - 1)
    else Inserted(inputs, ids, k - 1) + [ResolvedItem(inputs, ids, k - 1)]
  }

  function Written(items: seq<Item>, inputs: seq<ItemInput>, ids: seq<int>, k: nat): (r: seq<Item>)
    requires k <= |inputs| == |ids|
  {
    seq(|items|, p requires 0 <= p < |items| => RowAfter(items[p], inputs, k)) + Inserted(inputs, ids, k)
  }

  function Seen(inputs: seq<ItemInput>, k: nat): set<int>
    requires k <= |inputs|
  {
    set i | 0 <= i < k && inputs[i].id > 0 :: inputs[i].id
  }

  lemma {:induction false} InsertedItems(inputs: seq<ItemInput>, ids: seq<int>, k: nat)
    requires k <= |inputs| == |ids|
    ensures forall x :: x in Inserted(inputs, ids, k)
                   <==> exists i :: 0 <= i < k && inputs[i].id <= 0 && x == ResolvedItem(inputs, ids, i)
  {
    if k > 0 {
      InsertedItems(inputs, ids, k - 1);
      if inputs[k - 1].id <= 0 {
        var shorter := Inserted(inputs, ids, k - 1);
        assert Inserted(inputs, ids, k) == shorter + [ResolvedItem(inputs, ids, k - 1)];
      }
    }
  }

  function NewCount(inputs: seq<ItemInput>, k: nat): (n: nat)
    requires k <= |inputs|
    ensures n <= k
  {
    if k == 0 then 0 else NewCount(inputs, k - 1) + if inputs[k - 1].id <= 0 then 1 else 0
  }

  /** The input an inserted row comes from. */
  function SourceOf(inputs: seq<ItemInput>, k: nat, p: nat): (i: nat)
    requires k <= |inputs| && p < |inputs|
  {
    if k == 0 then 0
    else if inputs[k - 1].id <= 0 && p == NewCount(inputs, k - 1) then k - 1
    else SourceOf(inputs, k - 1, p)
  }

  lemma {:induction false} InsertedIds(inputs: seq<ItemInput>, ids: seq<int>, k: nat)
    requires k <= |inputs| == |ids| && FreshIds([], ids)
    ensures |Inserted(inputs, ids, k)| == NewCount(inputs, k)
    ensures forall p :: 0 <= p < NewCount(inputs, k) ==>
              SourceOf(inputs, k, p) < k && Inserted(inputs, ids, k)[p].id == ids[SourceOf(inputs, k, p)]
    ensures DistinctIds(Inserted(inputs, ids, k))
  {
    if k > 0 {
      InsertedIds(inputs, ids, k - 1);
      var shorter := Inserted(inputs, ids, k - 1);
      var longer := Inserted(inputs, ids, k);
      forall p | 0 <= p < NewCount(inputs, k)
        ensures SourceOf(inputs, k, p) < k && longer[p].id == ids[SourceOf(inputs, k, p)]
      {
        if p < NewCount(inputs, k - 1) {
          assert longer[p] == shorter[p];
        }
      }
      forall i, j | 0 <= i < j < |longer| ensures longer[i].id != longer[j].id {
        if j < |shorter| {
          assert longer[i] == shorter[i] && longer[j] == shorter[j];
        } else {
          assert longer[i].id == ids[SourceOf(inputs, k - 1, i)];
        }
      }
    }
  }

  /** No stored row has the id of an inserted one. */
  lemma {:induction false} InsertedAreNew(items: seq<Item>, inputs: seq<ItemInput>, ids: seq<int>, k: nat, p: nat)
    requires k <= |inputs| == |ids| && FreshIds(items, ids)
    requires p < |Inserted(inputs, ids, k)|
    ensures Inserted(inputs, ids, k)[p].id > 0 && !Stored(items, Inserted(inputs, ids, k)[p].id)
  {
    InsertedIds(inputs, ids, k);
  }

  lemma {:induction false} WrittenStep(items: seq<Item>, inputs: seq<ItemInput>, ids: seq<int>, k: nat)
    requires k < |inputs| == |ids| && FreshIds(items, ids)
    requires inputs[k].id > 0 ==> Stored(items, inputs[k].id)
    ensures Written(items, inputs, ids, k + 1)
         == if inputs[k].id > 0
            then SaveRow(Written(items, inputs, ids, k), inputs[k].id, SortOrderOf(inputs, k),
                         inputs[k].content, inputs[k].enabled)
            else Written(items, inputs, ids, k) + [ResolvedItem(inputs, ids, k)]
  {
    if inputs[k].id > 0 {
      var inserted := Inserted(inputs, ids, k);
      forall p | 0 <= p < |inserted| ensures inserted[p].id != inputs[k].id {
        InsertedAreNew(items, inputs, ids, k, p);
      }
    }
  }

  lemma {:induction false} SaveInputsOutcome(existing: seq<Item>, items: seq<Item>, inputs: seq<ItemInput>,
        ids: seq<int>, k: nat)
    requires k <= |inputs| == |ids| && FreshIds(items, ids)
    requires forall id :: Stored(existing, id) <==> Stored(items, id)
    ensures SaveInputs(existing, inputs, ids, k, Written(items, inputs, ids, k), Seen(inputs, k))
         == if forall i :: k <= i < |inputs| && inputs[i].id > 0 ==> Stored(items, inputs[i].id)
            then Some((Written(items, inputs, ids, |inputs|), Seen(inputs, |inputs|)))
            else None
    decreases |inputs| - k
  {
    hide Written, SaveRow, SortOrderOf, Stored;
    if k < |inputs| {
      if inputs[k].id <= 0 {
        assert Seen(inputs, k + 1) == Seen(inputs, k);
        WrittenStep(items, inputs, ids, k);
        SaveInputsOutcome(existing, items, inputs, ids, k + 1);
      } else if Stored(items, inputs[k].id) {
        assert Seen(inputs, k + 1) == Seen(inputs, k) + {inputs[k].id};
        WrittenStep(items, inputs, ids, k);
        SaveInputsOutcome(existing, items, inputs, ids, k + 1);
      } else {
        assert !Stored(existing, inputs[k].id);
      }
    }
  }

  lemma {:induction false} DropUnseenRow(existing: seq<Item>, seen: set<int>, items: seq<Item>, p: nat)
    requires p < |items|
    ensures |DropUnseen(existing, seen, items)| == |items|
    ensures DropUnseen(existing, seen, items)[p]
         == if Stored(existing, items[p].id) && items[p].id !in seen then items[p].(deleted := true) else items[p]
  {
    if existing != [] {
      var next := if existing[0].id in seen then items else DropRow(items, existing[0].id);
      DropUnseenRow(existing[1..], seen, next, p);
      var id := items[p].id;
      if Stored(existing, id) && existing[0].id != id {
        var i :| 0 <= i < |existing| && existing[i].id == id;
        assert existing[1..][i - 1].id == id;
      }
      if Stored(existing[1..], id) {
        var i :| 0 <= i < |existing| - 1 && existing[1..][i].id == id;
        assert existing[i + 1].id == id;
      }
    }
  }

  // ---------- Saving: the results ----------

  ghost predicate SaveAccepted(rows: Rows, params: SaveParams) {
    && (params.version > 0 ==> params.version == EnsuredConfig(rows).version)
    && (forall i :: 0 <= i < |params.items| && params.items[i].id > 0 ==> Stored(rows.items, params.items[i].id))
  }

  lemma {:induction false} SaveRuns(rows: Rows, params: SaveParams, ids: seq<int>)
    requires |ids| == |params.items| && FreshIds(rows.items, ids)
    ensures SaveInputs(ListItems(rows.items, true), params.items, ids, 0, rows.items, {})
         == if forall i :: 0 <= i < |params.items| && params.items[i].id > 0 ==> Stored(rows.items, params.items[i].id)
            then Some((Written(rows.items, params.items, ids, |params.items|), Seen(params.items, |params.items|)))
            else None
  {
    var existing := ListItems(rows.items, true);
    forall id ensures Stored(existing, id) <==> Stored(rows.items, id) {
      StoredInListing(rows.items, id);
    }
    assert Written(rows.items, params.items, ids, 0) == rows.items;
    assert Seen(params.items, 0) == {};
    SaveInputsOutcome(existing, rows.items, params.items, ids, 0);
  }

  /** A save commits exactly when its version is current (or absent) and every id it names is stored. */
  lemma {:induction false} SaveCommitsIff(rows: Rows, params: SaveParams, now: int, ids: seq<int>)
    requires |ids| == |params.items| && FreshIds(rows.items, ids)
    ensures Saved(rows, params, now, ids).Ok? <==> SaveAccepted(rows, params)
    ensures Saved(rows, params, now, ids) == Err(Conflict)
       <==> params.version > 0 && params.version != EnsuredConfig(rows).version
  {
    SaveRuns(rows, params, ids);
  }

  /** The row a stored row becomes: dropped unless an input names it. */
  function SavedRow(row: Item, inputs: seq<ItemInput>): Item {
    var r := RowAfter(row, inputs, |inputs|);
    if Names(inputs, row.id) then r else r.(deleted := true)
  }

  lemma {:induction false} SavedRowAt(items: seq<Item>, inputs: seq<ItemInput>, ids: seq<int>, p: nat)
    requires |ids| == |inputs| && FreshIds(items, ids) && p < |Written(items, inputs, ids, |inputs|)|
    ensures var written := Written(items, inputs, ids, |inputs|);
            var after := DropUnseen(ListItems(items, true), Seen(inputs, |inputs|), written);
            && |after| == |written|
            && after[p] == if p < |items| then SavedRow(items[p], inputs)
                           else Inserted(inputs, ids, |inputs|)[p - |items|]
  {
    hide ListItems, FreshIds;
    var written := Written(items, inputs, ids, |inputs|);
    var seen := Seen(inputs, |inputs|);
    DropUnseenRow(ListItems(items, true), seen, written, p);
    StoredInListing(items, written[p].id);
    if p < |items| {
      assert Stored(items, items[p].id);
      assert Names(inputs, items[p].id) <==> items[p].id in seen;
    } else {
      InsertedAreNew(items, inputs, ids, |inputs|, p - |items|);
    }
  }

  lemma {:induction false} DropUnseenLength(existing: seq<Item>, seen: set<int>, items: seq<Item>)
    ensures |DropUnseen(existing, seen, items)| == |items|
  {
    if existing != [] {
      DropUnseenLength(existing[1..], seen, if existing[0].id in seen then items else DropRow(items, existing[0].id));
    }
  }

  lemma {:induction false} SavedRows(rows: Rows, params: SaveParams, now: int, ids: seq<int>)
    requires |ids| == |params.items| && FreshIds(rows.items, ids)
    requires Saved(rows, params, now, ids).Ok?
    ensures Saved(rows, params, now, ids).value.items
         == seq(|rows.items|, p requires 0 <= p < |rows.items| => SavedRow(rows.items[p], params.items))
            + Inserted(params.items, ids, |params.items|)
  {
    hide ListItems, FreshIds, SavedRow, Inserted, RowAfter, DropUnseen, SaveInputs, Seen;
    var items, inputs := rows.items, params.items;
    var written := Written(items, inputs, ids, |inputs|);
    var after := Saved(rows, params, now, ids).value.items;
    SaveRuns(rows, params, ids);
    assert after == DropUnseen(ListItems(items, true), Seen(inputs, |inputs|), written);
    DropUnseenLength(ListItems(items, true), Seen(inputs, |inputs|), written);
    forall p | 0 <= p < |written|
      ensures after[p] == if p < |items| then SavedRow(items[p], inputs)
                          else Inserted(inputs, ids, |inputs|)[p - |items|]
    {
      SavedRowAt(items, inputs, ids, p);
    }
  }

  /** Every id the inputs give names a different live row. */
  ghost predicate NamesDistinctLiveRows(items: seq<Item>, inputs: seq<ItemInput>) {
    && (forall i :: 0 <= i < |inputs| && inputs[i].id > 0 ==> Affects(items, inputs[i].id))
    && (forall i, j :: 0 <= i < j < |inputs| && inputs[i].id > 0 ==> inputs[i].id != inputs[j].id)
  }

  lemma {:induction false} RowAfterNamed(row: Item, inputs: seq<ItemInput>, ids: seq<int>, i: nat, k: nat)
    requires i < k <= |inputs| == |ids| && inputs[i].id == row.id > 0 && !row.deleted
    requires forall j :: i < j < k ==> inputs[j].id != row.id
    ensures RowAfter(row, inputs, k) == ResolvedItem(inputs, ids, i)
  {
    if i < k - 1 {
      RowAfterNamed(row, inputs, ids, i, k - 1);
    }
  }

  lemma {:induction false} SavedRowIsResolved(items: seq<Item>, inputs: seq<ItemInput>, ids: seq<int>, row: Item,
        i: nat)
    requires |ids| == |inputs| && NamesDistinctLiveRows(items, inputs)
    requires i < |inputs| && inputs[i].id == row.id > 0 && !row.deleted
    ensures SavedRow(row, inputs) == ResolvedItem(inputs, ids, i)
  {
    RowAfterNamed(row, inputs, ids, i, |inputs|);
    assert Names(inputs, row.id);
  }

  lemma {:induction false} ResolvedIsLive(inputs: seq<ItemInput>, ids: seq<int>, x: Item)
    requires |ids| == |inputs|
    ensures x in Resolved(inputs, ids) ==> !x.deleted
  {
  }

  lemma {:induction false} NamedRow(items: seq<Item>, inputs: seq<ItemInput>, i: nat) returns (p: nat)
    requires NamesDistinctLiveRows(items, inputs) && i < |inputs| && inputs[i].id > 0
    ensures p < |items| && items[p].id == inputs[i].id && !items[p].deleted
  {
    p :| 0 <= p < |items| && items[p].id == inputs[i].id && !items[p].deleted;
  }

  /** The live rows after a save are the inputs, one for one. */
  lemma {:induction false} SavedLiveRows(rows: Rows, params: SaveParams, now: int, ids: seq<int>, x: Item)
    requires |ids| == |params.items| && FreshIds(rows.items, ids) && DistinctIds(rows.items)
    requires Saved(rows, params, now, ids).Ok? && NamesDistinctLiveRows(rows.items, params.items)
    ensures x in Saved(rows, params, now, ids).value.items && !x.deleted <==> x in Resolved(params.items, ids)
  {
    hide ResolvedItem, RowAfter, Saved, FreshIds, NamesDistinctLiveRows;
    var items, inputs := rows.items, params.items;
    var after := Saved(rows, params, now, ids).value.items;
    SavedRows(rows, params, now, ids);
    InsertedItems(inputs, ids, |inputs|);
    var inserted := Inserted(inputs, ids, |inputs|);
    var kept := seq(|items|, p requires 0 <= p < |items| => SavedRow(items[p], inputs));
    assert after == kept + inserted;
    if x in kept && !x.deleted {
      var p :| 0 <= p < |items| && kept[p] == x;
      assert Names(inputs, items[p].id);
      var i :| 0 <= i < |inputs| && inputs[i].id == items[p].id > 0;
      SavedRowIsResolved(items, inputs, ids, items[p], i);
      assert Resolved(inputs, ids)[i] == x;
    }
    if x in inserted {
      var i :| 0 <= i < |inputs| && inputs[i].id <= 0 && x == ResolvedItem(inputs, ids, i);
      assert Resolved(inputs, ids)[i] == x;
    }
    if x in Resolved(inputs, ids) {
      var i :| 0 <= i < |inputs| && Resolved(inputs, ids)[i] == x;
      if inputs[i].id > 0 {
        var p := NamedRow(items, inputs, i);
        SavedRowIsResolved(items, inputs, ids, items[p], i);
        assert kept[p] == x;
      }
      assert x in kept + inserted;
    }
    assert x in Resolved(inputs, ids) ==> !x.deleted by {
      ResolvedIsLive(inputs, ids, x);
    }
  }

  lemma {:induction false} SavedIdsAreDistinct(rows: Rows, params: SaveParams, now: int, ids: seq<int>)
    requires |ids| == |params.items| && FreshIds(rows.items, ids) && DistinctIds(rows.items)
    requires Saved(rows, params, now, ids).Ok?
    ensures DistinctIds(Saved(rows, params, now, ids).value.items)
  {
    SavedRows(rows, params, now, ids);
    InsertedIds(params.items, ids, |params.items|);
  }

  lemma {:induction false} ResolvedIdsAreDistinct(items: seq<Item>, inputs: seq<ItemInput>, ids: seq<int>)
    requires |ids| == |inputs| && FreshIds(items, ids) && NamesDistinctLiveRows(items, inputs)
    ensures DistinctIds(Resolved(inputs, ids))
  {
    forall i, j | 0 <= i < j < |inputs| ensures Resolved(inputs, ids)[i].id != Resolved(inputs, ids)[j].id {
      if inputs[i].id > 0 && inputs[j].id <= 0 {
        var p :| 0 <= p < |items| && items[p].id == inputs[i].id;
        assert items[p].id < ids[j];
      }
      if inputs[i].id <= 0 && inputs[j].id > 0 {
        var p :| 0 <= p < |items| && items[p].id == inputs[j].id;
        assert items[p].id < ids[i];
      }
    }
  }

  lemma {:induction false} DeletedRowIsUntouched(row: Item, inputs: seq<ItemInput>, k: nat)
    requires k <= |inputs| && row.deleted
    ensures RowAfter(row, inputs, k) == row
  {
    if k > 0 {
      DeletedRowIsUntouched(row, inputs, k - 1);
    }
  }

  lemma {:induction false} SavedListing(rows: Rows, params: SaveParams, now: int, ids: seq<int>)
    requires |ids| == |params.items| && FreshIds(rows.items, ids) && DistinctIds(rows.items)
    requires Saved(rows, params, now, ids).Ok? && NamesDistinctLiveRows(rows.items, params.items)
    requires DistinctIds(Saved(rows, params, now, ids).value.items) && DistinctIds(Resolved(params.items, ids))
    ensures var after := Saved(rows, params, now, ids).value.items;
            var wanted := Resolved(params.items, ids);
            && ListItems(after, false) == Ordered(wanted)
            && (StrictlyOrdered(wanted) ==> ListItems(after, false) == wanted)
  {
    hide NamesDistinctLiveRows, FreshIds, Resolved, Ordered, ListItems, Saved, StrictlyOrdered;
    var after := Saved(rows, params, now, ids).value.items;
    var wanted := Resolved(params.items, ids);
    forall x ensures x in after && !x.deleted <==> x in wanted {
      SavedLiveRows(rows, params, now, ids, x);
    }
    OrderedKeepsItems(wanted);
    OrderedIsStrict(wanted);
    ListingOfLive(after, Ordered(wanted));
    if StrictlyOrdered(wanted) {
      ListingOfLive(after, wanted);
    }
  }

  /**
   A committed save whose ids name different live rows replaces the whole list: the listing is exactly
   the inputs in listing order (in the given order when their sort orders increase), every other row is
   soft-deleted, and rows that were already deleted are untouched.
   */
  lemma {:induction false} SaveReplacesList(rows: Rows, params: SaveParams, now: int, ids: seq<int>)
    requires |ids| == |params.items| && FreshIds(rows.items, ids) && DistinctIds(rows.items)
    requires Saved(rows, params, now, ids).Ok? && NamesDistinctLiveRows(rows.items, params.items)
    ensures var after := Saved(rows, params, now, ids).value.items;
            var wanted := Resolved(params.items, ids);
            && ListItems(after, false) == Ordered(wanted)
            && (StrictlyOrdered(wanted) ==> ListItems(after, false) == wanted)
            && |rows.items| <= |after|
            && forall p :: 0 <= p < |rows.items| ==>
                 && after[p].id == rows.items[p].id
                 && (rows.items[p].deleted ==> after[p] == rows.items[p])
                 && (!rows.items[p].deleted ==> (after[p].deleted <==> !Names(params.items, after[p].id)))
  {
    var after := Saved(rows, params, now, ids).value.items;
    SavedIdsAreDistinct(rows, params, now, ids);
    ResolvedIdsAreDistinct(rows.items, params.items, ids);
    SavedListing(rows, params, now, ids);
    SavedRows(rows, params, now, ids);
    hide Saved, Resolved, ListItems, Ordered, StrictlyOrdered, DistinctIds, NamesDistinctLiveRows, FreshIds;
    forall p | 0 <= p < |rows.items| && rows.items[p].deleted ensures after[p] == rows.items[p] {
      DeletedRowIsUntouched(rows.items[p], params.items, |params.items|);
    }
  }

  // ---------- Counting ids ----------

  function IdsOf(items: seq<Item>): seq<int> {
    seq(|items|, i requires 0 <= i < |items| => items[i].id)
  }

  ghost predicate NoDuplicates(s: seq<int>) {
    forall i, j :: 0 <= i < j < |s| ==> s[i] != s[j]
  }

  function Elements(s: seq<int>): set<int> {
    set x | x in s
  }

  lemma {:induction false} DistinctCount(s: seq<int>)
    requires NoDuplicates(s)
    ensures |Elements(s)| == |s|
  {
    if s != [] {
      DistinctCount(Init(s));
      assert Last(s) !in Init(s);
      assert Elements(s) == Elements(Init(s)) + {Last(s)} by {
        assert s == Init(s) + [Last(s)];
      }
    }
  }

  lemma {:induction false} SubsetOfSameSize(a: set<int>, b: set<int>)
    requires a <= b && |a| == |b|
    ensures a == b
  {
    var rest := b - a;
    assert b == a + rest;
    assert |rest| == 0;
  }

  // ---------- Saving: how many rows stay ----------

  predicate NoIdRepeats(inputs: seq<ItemInput>, k: nat)
    requires k <= |inputs|
  {
    forall i, j :: 0 <= i < j < k && inputs[i].id > 0 ==> inputs[i].id != inputs[j].id
  }

  lemma {:induction false} NoIdRepeatsStep(inputs: seq<ItemInput>, k: nat)
    requires 0 < k <= |inputs|
    ensures NoIdRepeats(inputs, k) <==> NoIdRepeats(inputs, k - 1) && inputs[k - 1].id !in Seen(inputs, k - 1)
  {
    var id := inputs[k - 1].id;
    if id in Seen(inputs, k - 1) {
      var i :| 0 <= i < k - 1 && inputs[i].id > 0 && inputs[i].id == id;
      assert !NoIdRepeats(inputs, k);
    } else {
      assert forall i :: 0 <= i < k - 1 && inputs[i].id > 0 ==> inputs[i].id in Seen(inputs, k - 1);
    }
  }

  lemma {:induction false} SeenStep(inputs: seq<ItemInput>, k: nat)
    requires 0 < k <= |inputs|
    ensures inputs[k - 1].id <= 0 ==> Seen(inputs, k) == Seen(inputs, k - 1) && inputs[k - 1].id !in Seen(inputs, k - 1)
    ensures inputs[k - 1].id > 0 ==> Seen(inputs, k) == Seen(inputs, k - 1) + {inputs[k - 1].id}
  {
  }

  /** The named ids among the first `k` inputs are at most the inputs that name one, and as many only if all differ. */
  lemma {:induction false} SeenCount(inputs: seq<ItemInput>, k: nat)
    requires k <= |inputs|
    ensures |Seen(inputs, k)| <= k - NewCount(inputs, k)
    ensures |Seen(inputs, k)| == k - NewCount(inputs, k) <==> NoIdRepeats(inputs, k)
  {
    if k > 0 {
      SeenCount(inputs, k - 1);
      NoIdRepeatsStep(inputs, k);
      SeenStep(inputs, k);
      hide NoIdRepeats, Seen;
    }
  }

  lemma {:induction false} LiveOfConcat(a: seq<Item>, b: seq<Item>)
    ensures Live(a + b) == Live(a) + Live(b)
  {
    if b == [] {
      assert a + b == a;
    } else {
      LiveOfConcat(a, Init(b));
      assert Init(a + b) == a + Init(b) && Last(a + b) == Last(b);
      assert Live(a) + (Live(Init(b)) + [Last(b)]) == (Live(a) + Live(Init(b))) + [Last(b)];
    }
  }

  lemma {:induction false} InsertedAreLive(inputs: seq<ItemInput>, ids: seq<int>, k: nat)
    requires k <= |inputs| == |ids|
    ensures Live(Inserted(inputs, ids, k)) == Inserted(inputs, ids, k)
    ensures |Inserted(inputs, ids, k)| == NewCount(inputs, k)
  {
    if k > 0 {
      InsertedAreLive(inputs, ids, k - 1);
    }
  }

  function KeptRows(items: seq<Item>, inputs: seq<ItemInput>): seq<Item> {
    seq(|items|, p requires 0 <= p < |items| => SavedRow(items[p], inputs))
  }

  lemma {:induction false} KeptIds(items: seq<Item>, inputs: seq<ItemInput>)
    ensures Elements(IdsOf(Live(KeptRows(items, inputs))))
         == set p | 0 <= p < |items| && !items[p].deleted && Names(inputs, items[p].id) :: items[p].id
  {
    hide RowAfter, Names, NamesDistinctLiveRows;
    var kept := KeptRows(items, inputs);
    var live := Live(kept);
    LiveKeepsLiveItems(kept);
    forall id | id in Elements(IdsOf(live))
      ensures exists p :: 0 <= p < |items| && !items[p].deleted && Names(inputs, items[p].id) && items[p].id == id
    {
      var q :| 0 <= q < |live| && live[q].id == id;
      assert live[q] in live;
      var p :| 0 <= p < |kept| && kept[p] == live[q];
      assert items[p].id == id;
    }
    forall p | 0 <= p < |items| && !items[p].deleted && Names(inputs, items[p].id)
      ensures items[p].id in Elements(IdsOf(live))
    {
      assert kept[p] in kept && kept[p] in live;
      var q :| 0 <= q < |live| && live[q] == kept[p];
      assert IdsOf(live)[q] == items[p].id;
    }
  }

  lemma {:induction false} AllKeptIff(items: seq<Item>, inputs: seq<ItemInput>)
    ensures Seen(inputs, |inputs|) <= Elements(IdsOf(Live(KeptRows(items, inputs))))
       <==> forall i :: 0 <= i < |inputs| && inputs[i].id > 0 ==> Affects(items, inputs[i].id)
    ensures Elements(IdsOf(Live(KeptRows(items, inputs)))) <= Seen(inputs, |inputs|)
    ensures NamesDistinctLiveRows(items, inputs)
       <==> (forall i :: 0 <= i < |inputs| && inputs[i].id > 0 ==> Affects(items, inputs[i].id))
            && (forall i, j :: 0 <= i < j < |inputs| && inputs[i].id > 0 ==> inputs[i].id != inputs[j].id)
  {
    hide KeptRows;
    KeptIds(items, inputs);
    var named := Elements(IdsOf(Live(KeptRows(items, inputs))));
    forall i | 0 <= i < |inputs| && inputs[i].id > 0 ensures inputs[i].id in named <==> Affects(items, inputs[i].id) {
      assert Names(inputs, inputs[i].id);
    }
    assert forall i :: 0 <= i < |inputs| && inputs[i].id > 0 ==> inputs[i].id in Seen(inputs, |inputs|);
  }

  lemma {:induction false} SubsetCount(part: set<int>, whole: set<int>)
    requires part <= whole
    ensures |part| <= |whole|
    ensures |part| == |whole| <==> whole <= part
  {
    var lost := whole - part;
    assert whole == part + lost;
    assert |lost| == 0 <==> whole <= part;
  }

  lemma {:induction false} KeptCount(items: seq<Item>, inputs: seq<ItemInput>)
    requires DistinctIds(items)
    ensures |Live(KeptRows(items, inputs))| <= |inputs| - NewCount(inputs, |inputs|)
    ensures |Live(KeptRows(items, inputs))| == |inputs| - NewCount(inputs, |inputs|)
       <==> NamesDistinctLiveRows(items, inputs)
  {
    LiveKeepsLiveItems(KeptRows(items, inputs));
    DistinctCount(IdsOf(Live(KeptRows(items, inputs))));
    SeenCount(inputs, |inputs|);
    AllKeptIff(items, inputs);
    hide KeptRows, NamesDistinctLiveRows, Live, NewCount, Affects, Seen, Elements, NoDuplicates, IdsOf, DistinctIds,
      NoIdRepeats;
    SubsetCount(Elements(IdsOf(Live(KeptRows(items, inputs)))), Seen(inputs, |inputs|));
  }

  /**
   A committed save never leaves more live rows than it was given inputs, and as many exactly when every
   id it names belongs to a different live row: a repeated or a deleted id loses its input silently.
   */
  lemma {:induction false} SaveKeepsEveryInputIff(rows: Rows, params: SaveParams, now: int, ids: seq<int>)
    requires |ids| == |params.items| && FreshIds(rows.items, ids) && DistinctIds(rows.items)
    requires Saved(rows, params, now, ids).Ok?
    ensures var count := |Live(Saved(rows, params, now, ids).value.items)|;
            && count <= |params.items|
            && (count == |params.items| <==> NamesDistinctLiveRows(rows.items, params.items))
  {
    hide NamesDistinctLiveRows, Inserted, SavedRow, FreshIds;
    var kept := KeptRows(rows.items, params.items);
    var inserted := Inserted(params.items, ids, |params.items|);
    SavedRows(rows, params, now, ids);
    assert Saved(rows, params, now, ids).value.items == kept + inserted;
    LiveOfConcat(kept, inserted);
    InsertedAreLive(params.items, ids, |params.items|);
    KeptCount(rows.items, params.items);
  }

  // ---------- Sorting ----------

  /** Pigeonhole: as many different stored ids as there are rows are all the stored ids. */
  lemma {:induction false} AllIdsGiven(items: seq<Item>, ids: seq<int>)
    requires DistinctIds(items) && NoDuplicates(ids) && |ids| == |items|
    requires forall k :: 0 <= k < |ids| ==> Stored(items, ids[k])
    ensures Elements(ids) == Elements(IdsOf(items))
  {
    DistinctCount(ids);
    DistinctCount(IdsOf(items));
    forall x | x in Elements(ids) ensures x in Elements(IdsOf(items)) {
      var k :| 0 <= k < |ids| && ids[k] == x;
      assert Stored(items, ids[k]);
      var i :| 0 <= i < |items| && items[i].id == x;
      assert IdsOf(items)[i] == x;
    }
    SubsetOfSameSize(Elements(ids), Elements(IdsOf(items)));
  }

  /** The rows once the first `k` ids have been given their places. */
  function Placed(items: seq<Item>, ids: seq<int>, k: nat): (r: seq<Item>)
    requires k <= |ids|
    ensures |r| == |items|
    ensures forall p :: 0 <= p < |items| ==> r[p] == items[p].(sortOrder := r[p].sortOrder)
  {
    if k == 0 then items else OrderRow(Placed(items, ids, k - 1), ids[k - 1], k)
  }

  ghost predicate SortAccepted(items: seq<Item>, ids: seq<int>) {
    |ids| == |items| && NoDuplicates(ids) && forall k :: 0 <= k < |ids| ==> Stored(items, ids[k])
  }

  lemma {:induction false} SortInputsOutcome(existing: seq<Item>, items: seq<Item>, ids: seq<int>, k: nat)
    requires k <= |ids| && NoDuplicates(ids[..k])
    requires forall id :: Stored(existing, id) <==> Stored(items, id)
    ensures SortInputs(existing, ids, k, Placed(items, ids, k), Elements(ids[..k]))
         == if NoDuplicates(ids) && forall j :: k <= j < |ids| ==> Stored(items, ids[j])
            then Some(Placed(items, ids, |ids|))
            else None
    decreases |ids| - k
  {
    hide Stored, OrderRow;
    if k == |ids| {
      assert ids[..k] == ids;
    } else if Stored(items, ids[k]) && ids[k] !in Elements(ids[..k]) {
      assert ids[..k + 1] == ids[..k] + [ids[k]];
      assert Elements(ids[..k + 1]) == Elements(ids[..k]) + {ids[k]};
      SortInputsOutcome(existing, items, ids, k + 1);
    } else if Stored(items, ids[k]) {
      var j :| 0 <= j < k && ids[..k][j] == ids[k];
      assert ids[j] == ids[k];
    }
  }

  lemma {:induction false} SortRuns(rows: Rows, ids: seq<int>)
    requires DistinctIds(rows.items)
    ensures |ListItems(rows.items, true)| == |rows.items|
    ensures SortInputs(ListItems(rows.items, true), ids, 0, rows.items, {})
         == if NoDuplicates(ids) && forall j :: 0 <= j < |ids| ==> Stored(rows.items, ids[j])
            then Some(Placed(rows.items, ids, |ids|))
            else None
  {
    ListingIsStrict(rows.items, true);
    var existing := ListItems(rows.items, true);
    forall id ensures Stored(existing, id) <==> Stored(rows.items, id) {
      StoredInListing(rows.items, id);
    }
    assert Elements(ids[..0]) == {};
    SortInputsOutcome(existing, rows.items, ids, 0);
  }

  lemma {:induction false} Multiplicity(s: seq<int>, x: int)
    requires NoDuplicates(s)
    ensures multiset(s)[x] == if x in s then 1 else 0
  {
    if s != [] {
      assert s == Init(s) + [Last(s)];
      Multiplicity(Init(s), x);
      assert Last(s) !in Init(s);
    }
  }

  lemma {:induction false} EqualMultisets(a: seq<int>, b: seq<int>)
    requires NoDuplicates(a) && NoDuplicates(b) && Elements(a) == Elements(b)
    ensures multiset(a) == multiset(b)
  {
    forall x ensures multiset(a)[x] == multiset(b)[x] {
      Multiplicity(a, x);
      Multiplicity(b, x);
      assert x in a <==> x in Elements(a);
      assert x in b <==> x in Elements(b);
    }
  }

  lemma {:induction false} RepeatsCountTwice(a: seq<int>, i: nat, j: nat)
    requires i < j < |a| && a[i] == a[j]
    ensures multiset(a)[a[i]] >= 2
  {
    assert a == a[..j] + a[j..];
    assert a[i] in a[..j] && a[j] == a[j..][0];
    assert a[i] in multiset(a[..j]) && a[i] in multiset(a[j..]);
  }

  lemma {:induction false} NoDuplicatesByMultiset(a: seq<int>, b: seq<int>)
    requires multiset(a) == multiset(b) && NoDuplicates(b)
    ensures NoDuplicates(a)
  {
    forall i, j | 0 <= i < j < |a| ensures a[i] != a[j] {
      Multiplicity(b, a[i]);
      if a[i] == a[j] {
        RepeatsCountTwice(a, i, j);
      }
    }
  }

  lemma {:induction false} PermutationIsAccepted(items: seq<Item>, ids: seq<int>)
    requires DistinctIds(items) && multiset(ids) == multiset(IdsOf(items))
    ensures SortAccepted(items, ids)
  {
    assert |ids| == |multiset(ids)| == |multiset(IdsOf(items))| == |items|;
    NoDuplicatesByMultiset(ids, IdsOf(items));
    hide NoDuplicates, DistinctIds;
    forall k | 0 <= k < |ids| ensures Stored(items, ids[k]) {
      assert ids[k] in multiset(ids);
      assert ids[k] in IdsOf(items);
      var i :| 0 <= i < |items| && IdsOf(items)[i] == ids[k];
    }
  }

  /** Sorting succeeds exactly on the permutations of all stored ids, deleted rows' ids included. */
  lemma {:induction false} SortAcceptsExactlyPermutations(rows: Rows, ids: seq<int>)
    requires DistinctIds(rows.items)
    ensures Sorted(rows, ids).0.Ok? <==> multiset(ids) == multiset(IdsOf(rows.items))
  {
    SortRuns(rows, ids);
    if SortAccepted(rows.items, ids) {
      AllIdsGiven(rows.items, ids);
      EqualMultisets(ids, IdsOf(rows.items));
    }
    if multiset(ids) == multiset(IdsOf(rows.items)) {
      PermutationIsAccepted(rows.items, ids);
    }
  }

  lemma {:induction false} PlaceOf(items: seq<Item>, ids: seq<int>, k: nat, p: nat, i: nat)
    requires i < k <= |ids| && NoDuplicates(ids) && p < |items| && items[p].id == ids[i] && !items[p].deleted
    ensures Placed(items, ids, k)[p] == items[p].(sortOrder := i + 1)
  {
    if i < k - 1 {
      PlaceOf(items, ids, k - 1, p, i);
    }
  }

  /** The live rows of a table in the order of an id list. */
  function LiveInOrder(items: seq<Item>, ids: seq<int>, k: nat): seq<int>
    requires k <= |ids|
  {
    if k == 0 then []
    else if Affects(items, ids[k - 1]) then LiveInOrder(items, ids, k - 1) + [ids[k - 1]]
    else LiveInOrder(items, ids, k - 1)
  }

  function FirstLive(items: seq<Item>, id: int): (p: nat)
    requires Affects(items, id)
    ensures p < |items| && items[p].id == id && !items[p].deleted
  {
    if Last(items).id == id && !Last(items).deleted then |items| - 1
    else
      assert Affects(Init(items), id) by {
        var i :| 0 <= i < |items| && items[i].id == id && !items[i].deleted;
        assert Init(items)[i].id == id;
      }
      FirstLive(Init(items), id)
  }

  function PlacedRow(items: seq<Item>, id: int, sortOrder: int): Item
    requires Affects(items, id)
  {
    var p := FirstLive(items, id);
    items[p].(sortOrder := sortOrder)
  }

  function PlacedListing(items: seq<Item>, ids: seq<int>, k: nat): seq<Item>
    requires k <= |ids|
  {
    if k == 0 then []
    else if Affects(items, ids[k - 1]) then PlacedListing(items, ids, k - 1) + [PlacedRow(items, ids[k - 1], k)]
    else PlacedListing(items, ids, k - 1)
  }

  lemma {:induction false} PlacedListingIds(items: seq<Item>, ids: seq<int>, k: nat)
    requires k <= |ids|
    ensures IdsOf(PlacedListing(items, ids, k)) == LiveInOrder(items, ids, k)
  {
    hide Affects;
    if k > 0 {
      PlacedListingIds(items, ids, k - 1);
    }
  }

  lemma {:induction false} PlacedListingIsOrdered(items: seq<Item>, ids: seq<int>, k: nat)
    requires k <= |ids|
    ensures StrictlyOrdered(PlacedListing(items, ids, k))
    ensures forall i :: 0 <= i < |PlacedListing(items, ids, k)| ==> PlacedListing(items, ids, k)[i].sortOrder <= k
  {
    hide Affects;
    if k > 0 {
      PlacedListingIsOrdered(items, ids, k - 1);
    }
  }

  /** The row of the `i`-th id, if it is live, with its place. */
  predicate IsPlaced(items: seq<Item>, ids: seq<int>, k: nat, x: Item)
    requires k <= |ids|
  {
    exists i :: 0 <= i < k && Affects(items, ids[i]) && x == PlacedRow(items, ids[i], i + 1)
  }

  lemma {:induction false} IsPlacedStep(items: seq<Item>, ids: seq<int>, k: nat, x: Item)
    requires 0 < k <= |ids|
    ensures IsPlaced(items, ids, k, x)
       <==> IsPlaced(items, ids, k - 1, x) || (Affects(items, ids[k - 1]) && x == PlacedRow(items, ids[k - 1], k))
  {
    hide Affects, PlacedRow;
  }

  lemma {:induction false} PlacedListingItems(items: seq<Item>, ids: seq<int>, k: nat, x: Item)
    requires k <= |ids|
    ensures x in PlacedListing(items, ids, k) <==> IsPlaced(items, ids, k, x)
  {
    hide Affects, PlacedRow;
    if k > 0 {
      PlacedListingItems(items, ids, k - 1, x);
      IsPlacedStep(items, ids, k, x);
      hide IsPlaced;
    }
  }

  lemma {:induction false} IsPlacedIsLive(items: seq<Item>, ids: seq<int>, x: Item)
    requires NoDuplicates(ids) && IsPlaced(items, ids, |ids|, x)
    ensures x in Placed(items, ids, |ids|) && !x.deleted
  {
    hide Placed, FirstLive, NoDuplicates;
    var i :| 0 <= i < |ids| && Affects(items, ids[i]) && x == PlacedRow(items, ids[i], i + 1);
    var p := FirstLive(items, ids[i]);
    PlaceOf(items, ids, |ids|, p, i);
    assert Placed(items, ids, |ids|)[p] == x;
  }

  lemma {:induction false} LiveIsPlaced(items: seq<Item>, ids: seq<int>, x: Item)
    requires DistinctIds(items) && NoDuplicates(ids) && Elements(ids) == Elements(IdsOf(items))
    requires x in Placed(items, ids, |ids|) && !x.deleted
    ensures IsPlaced(items, ids, |ids|, x)
  {
    hide Placed, FirstLive, NoDuplicates;
    var after := Placed(items, ids, |ids|);
    var p :| 0 <= p < |after| && after[p] == x;
    assert IdsOf(items)[p] == items[p].id;
    assert items[p].id in Elements(ids);
    var i :| 0 <= i < |ids| && ids[i] == items[p].id;
    assert Affects(items, ids[i]);
    PlaceOf(items, ids, |ids|, p, i);
    assert FirstLive(items, ids[i]) == p;
    assert x == PlacedRow(items, ids[i], i + 1);
  }

  lemma {:induction false} AllIdsOfSort(items: seq<Item>, ids: seq<int>)
    requires DistinctIds(items) && SortAccepted(items, ids)
    ensures NoDuplicates(ids) && Elements(ids) == Elements(IdsOf(items))
  {
    AllIdsGiven(items, ids);
  }

  lemma {:induction false} PlacedIsListed(items: seq<Item>, ids: seq<int>, x: Item)
    requires DistinctIds(items) && SortAccepted(items, ids)
    ensures x in PlacedListing(items, ids, |ids|) <==> x in Placed(items, ids, |ids|) && !x.deleted
  {
    hide SortAccepted, PlacedListing;
    PlacedListingItems(items, ids, |ids|, x);
    AllIdsOfSort(items, ids);
    if IsPlaced(items, ids, |ids|, x) {
      IsPlacedIsLive(items, ids, x);
    }
    if x in Placed(items, ids, |ids|) && !x.deleted {
      LiveIsPlaced(items, ids, x);
    }
  }

  /** After a sort, the listing names the live rows in the order of the given ids. */
  lemma {:induction false} SortOrdersListing(rows: Rows, ids: seq<int>)
    requires DistinctIds(rows.items) && Sorted(rows, ids).0.Ok?
    ensures IdsOf(ListItems(Sorted(rows, ids).1.items, false)) == LiveInOrder(rows.items, ids, |ids|)
  {
    hide Placed, PlacedListing, ListItems, SortInputs, LiveInOrder;
    SortRuns(rows, ids);
    assert SortAccepted(rows.items, ids);
    var after := Placed(rows.items, ids, |ids|);
    assert Sorted(rows, ids).1.items == after;
    forall x ensures x in PlacedListing(rows.items, ids, |ids|) <==> x in after && !x.deleted {
      PlacedIsListed(rows.items, ids, x);
    }
    PlacedListingIds(rows.items, ids, |ids|);
    PlacedListingIsOrdered(rows.items, ids, |ids|);
    ListingOfLive(after, PlacedListing(rows.items, ids, |ids|));
  }
}
