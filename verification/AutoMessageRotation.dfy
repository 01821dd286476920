/** Rotation: which item an attempt sends, and how evenly items take turns. */
module AutoMessageRotation {
  import opened Prelude
  import opened AutoMessageRows
  import opened AutoMessageListing

  // ---------- The next item ----------

  /** What an attempt sends is live, enabled, and what the preview shows. */
  lemma {:induction false} PreviewIsNextSend(rows: Rows)
    requires CanSend(rows)
    ensures DetailOf(rows).Ok? && DetailOf(rows).value.nextItem == Some(CandidateOf(rows).item)
    ensures var item := CandidateOf(rows).item;
            item in rows.items && !item.deleted && item.enabled
  {
    var item := CandidateOf(rows).item;
    assert item in Rotation(rows);
    EnabledKeepsEnabledItems(ListItems(rows.items, false));
    LiveKeepsLiveItems(rows.items);
    OrderedKeepsItems(Live(rows.items));
  }

  /** Without items to rotate there is no preview, and an attempt logs that it had nothing to send. */
  lemma {:induction false} NoPreviewIffNothingToSend(rows: Rows, now: int, send: Candidate -> SendResult)
    requires rows.config.Some? && Due(rows.config.value, now)
    ensures DetailOf(rows).value.nextItem == None
       <==> Processed(rows, true, now, send) == Ok(NothingToSend(rows, now))
  {
    hide Rotation;
    if Rotation(rows) != [] {
      var after := Processed(rows, true, now, send).value;
      assert Last(after.logs).sendIndex > 0;
      assert Last(NothingToSend(rows, now).logs).sendIndex == 0;
    }
  }

  /**
   First send: an activation at `now` makes the configuration due exactly one interval later, starting
   with the first item of the rotation.
   */
  lemma {:induction false} FirstSendAfterActivation(rows: Rows, interval: int, now: int, t: int)
    requires Activated(rows, interval, now).Ok?
    ensures var after := Activated(rows, interval, now).value;
            var minutes := if interval <= 0 then EnsuredConfig(rows).intervalMinutes else interval;
            && (Due(after.config.value, t) <==> now + Seconds(minutes) <= t)
            && CanSend(after) && CandidateOf(after).index == 0 && CandidateOf(after).item == Rotation(rows)[0]
  {
    assert Rotation(Activated(rows, interval, now).value) == Rotation(rows);
  }

  /** The same after a save that enables. */
  lemma {:induction false} FirstSendAfterSave(rows: Rows, params: SaveParams, now: int, ids: seq<int>, t: int)
    requires |ids| == |params.items| && params.enabled && Saved(rows, params, now, ids).Ok?
    ensures var after := Saved(rows, params, now, ids).value;
            && (Due(after.config.value, t) <==> now + Seconds(params.intervalMinutes) <= t)
            && (Rotation(after) != [] ==>
                  CandidateOf(after).index == 0 && CandidateOf(after).item == Rotation(after)[0])
  {
    hide Rotation, SaveInputs, DropUnseen;
  }

  // ---------- Runs of attempts ----------

  datatype Call = Call(active: bool, now: int, result: SendResult)

  function AttemptOnce(rows: Rows, call: Call): Rows {
    match Processed(rows, call.active, call.now, _ => call.result)
    case Err(_) => rows
    case Ok(after) => after
  }

  function Attempts(rows: Rows, calls: seq<Call>): Rows {
    if calls == [] then rows else AttemptOnce(Attempts(rows, Init(calls)), Last(calls))
  }

  /** The items of the successful sends in a log, in order. */
  function SentIds(logs: seq<Log>): seq<int> {
    if logs == [] then []
    else if Last(logs).status == SUCCESS then SentIds(Init(logs)) + [Last(logs).itemId]
    else SentIds(Init(logs))
  }

  /** The item ids of a rotation, round and round, `count` of them. */
  function Cycle(rotation: seq<Item>, count: nat): seq<int>
    requires rotation != []
  {
    seq(count, i requires 0 <= i < count => rotation[i % |rotation|].id)
  }

  /** The turn a rotation is at. */
  function Turn(rows: Rows): int
    requires rows.config.Some?
  {
    ClampedIndex(rows.config.value.currentIndex, |Rotation(rows)|)
  }

  lemma {:induction false} CycleStep(rotation: seq<Item>, count: nat)
    requires rotation != []
    ensures Cycle(rotation, count + 1) == Cycle(rotation, count) + [rotation[count % |rotation|].id]
  {
  }

  lemma {:induction false} SentIdsStep(logs: seq<Log>, log: Log)
    ensures SentIds(logs + [log]) == if log.status == SUCCESS then SentIds(logs) + [log.itemId] else SentIds(logs)
  {
    assert Init(logs + [log]) == logs;
  }

  lemma {:induction false} RotationDependsOnItems(a: Rows, b: Rows)
    requires a.items == b.items
    ensures Rotation(a) == Rotation(b)
  {
  }

  lemma {:induction false} AttemptTurns(rows: Rows, call: Call)
    requires rows.config.Some? && Rotation(rows) != []
    ensures var after := AttemptOnce(rows, call);
            && after.config.Some? && after.items == rows.items && Rotation(after) == Rotation(rows)
            && (|| (SentIds(after.logs) == SentIds(rows.logs) && Turn(after) == Turn(rows))
                || (SentIds(after.logs) == SentIds(rows.logs) + [Rotation(rows)[Turn(rows)].id]
                    && Turn(after) == (Turn(rows) + 1) % |Rotation(rows)|))
  {
    var after := AttemptOnce(rows, call);
    hide Rotation;
    assert after.items == rows.items;
    RotationDependsOnItems(rows, after);
    if after.logs != rows.logs {
      assert after.logs == rows.logs + [Last(after.logs)];
      SentIdsStep(rows.logs, Last(after.logs));
    }
    assert SUCCESS != FAILED by {
      assert |SUCCESS| != |FAILED|;
    }
  }

  lemma {:induction false} AtLeastOnce(n: nat, k: nat)
    requires k > 0
    ensures n * k >= n
  {
    if k > 1 {
      AtLeastOnce(n, k - 1);
    }
    assert n * k == n * (k - 1) + n;
  }

  lemma {:induction false} QuotientIsUnique(n: nat, q: int, r: nat, p: int, t: nat)
    requires r < n && t < n && n * q + r == n * p + t
    ensures q == p && r == t
  {
    assert n * (q - p) == n * q - n * p;
    assert n * (p - q) == n * p - n * q;
    if q > p {
      AtLeastOnce(n, q - p);
    } else if p > q {
      AtLeastOnce(n, p - q);
    }
  }

  lemma {:induction false} Division(s: nat, n: nat)
    requires n > 0
    ensures s == n * (s / n) + s % n && 0 <= s % n < n
  {
  }

  /** One more turn moves to the next place, or starts the next round. */
  lemma {:induction false} NextTurn(s: nat, n: nat)
    requires n > 0
    ensures (s + 1) / n == if s % n + 1 == n then s / n + 1 else s / n
    ensures (s + 1) % n == if s % n + 1 == n then 0 else s % n + 1
  {
    Division(s, n);
    Division(s + 1, n);
    if s % n + 1 == n {
      assert n * (s / n + 1) == n * (s / n) + n;
      QuotientIsUnique(n, (s + 1) / n, (s + 1) % n, s / n + 1, 0);
    } else {
      QuotientIsUnique(n, (s + 1) / n, (s + 1) % n, s / n, s % n + 1);
    }
  }

  lemma {:induction false} NextIndex(i: nat, n: nat)
    requires i < n
    ensures (i + 1) % n == if i + 1 == n then 0 else i + 1
  {
    if i + 1 == n {
      assert n % n == 0;
    }
  }

  lemma {:induction false} NoCycle(rotation: seq<Item>)
    requires rotation != []
    ensures Cycle(rotation, 0) == [] && 0 % |rotation| == 0
  {
  }

  /**
   Rotation: from the first turn, what the successful sends of any run of attempts add to the log is the items of
   the rotation in order, round and round, whatever was sent before and whatever failures and idle rounds come
   between.
   */
  lemma {:induction false} SendsFollowRotation(rows: Rows, calls: seq<Call>)
    requires rows.config.Some? && Rotation(rows) != [] && Turn(rows) == 0
    ensures var after := Attempts(rows, calls);
            var n := |SentIds(after.logs)| - |SentIds(rows.logs)|;
            && after.config.Some? && after.items == rows.items && Rotation(after) == Rotation(rows)
            && n >= 0
            && SentIds(after.logs) == SentIds(rows.logs) + Cycle(Rotation(rows), n)
            && Turn(after) == n % |Rotation(rows)|
  {
    hide Rotation, AttemptOnce, Cycle;
    if calls == [] {
      NoCycle(Rotation(rows));
      assert SentIds(rows.logs) + [] == SentIds(rows.logs);
    } else {
      SendsFollowRotation(rows, Init(calls));
      var before := Attempts(rows, Init(calls));
      AttemptTurns(before, Last(calls));
      var n := |SentIds(before.logs)| - |SentIds(rows.logs)|;
      NextTurn(n, |Rotation(rows)|);
      NextIndex(Turn(before), |Rotation(rows)|);
      CycleStep(Rotation(rows), n);
      assert SentIds(rows.logs) + Cycle(Rotation(rows), n + 1)
          == SentIds(rows.logs) + Cycle(Rotation(rows), n) + [Rotation(rows)[n % |Rotation(rows)|].id];
    }
  }

  // ---------- Fairness ----------

  function Count(ids: seq<int>, id: int): nat {
    if ids == [] then 0 else Count(Init(ids), id) + if Last(ids) == id then 1 else 0
  }

  /** The turns that place `j` of `n` has in the first `s`: one a round, and one more if the last round reached it. */
  function Turns(s: nat, n: nat, j: nat): nat
    requires n > 0
  {
    s / n + if j < s % n then 1 else 0
  }

  lemma {:induction false} TurnsStep(s: nat, n: nat, j: nat)
    requires j < n
    ensures Turns(s + 1, n, j) == Turns(s, n, j) + if s % n == j then 1 else 0
  {
    NextTurn(s, n);
  }

  lemma {:induction false} NoTurns(rotation: seq<Item>, j: nat)
    requires j < |rotation|
    ensures Cycle(rotation, 0) == [] && Turns(0, |rotation|, j) == 0
  {
  }

  lemma {:induction false} CountStep(ids: seq<int>, last: int, id: int)
    ensures Count(ids + [last], id) == Count(ids, id) + if last == id then 1 else 0
  {
    assert Init(ids + [last]) == ids;
  }

  lemma {:induction false} TurnsOf(rotation: seq<Item>, s: nat, j: nat)
    requires j < |rotation| && DistinctIds(rotation)
    ensures Count(Cycle(rotation, s), rotation[j].id) == Turns(s, |rotation|, j)
  {
    hide Cycle, Turns;
    var n := |rotation|;
    if s == 0 {
      NoTurns(rotation, j);
    } else {
      TurnsOf(rotation, s - 1, j);
      TurnsStep(s - 1, n, j);
      CycleStep(rotation, s - 1);
      var last := (s - 1) % n;
      CountStep(Cycle(rotation, s - 1), rotation[last].id, rotation[j].id);
      assert rotation[last].id == rotation[j].id <==> last == j;
    }
  }

  lemma {:induction false} EnabledKeepsDistinctIds(items: seq<Item>)
    requires DistinctIds(items)
    ensures DistinctIds(Enabled(items))
  {
    if items != [] {
      EnabledKeepsDistinctIds(Init(items));
      EnabledKeepsEnabledItems(Init(items));
      var rest := Enabled(Init(items));
      forall i | 0 <= i < |rest| ensures rest[i].id != Last(items).id {
        assert rest[i] in Init(items);
      }
    }
  }

  lemma {:induction false} OrderedKeepsDistinctIds(items: seq<Item>)
    requires DistinctIds(items)
    ensures DistinctIds(Ordered(items))
  {
    OrderedKeepsItems(items);
    OrderedIsStrict(items);
    var s := Ordered(items);
    forall i, j | 0 <= i < j < |s| ensures s[i].id != s[j].id {
      assert s[i] in items && s[j] in items && Before(s[i], s[j]);
    }
  }

  lemma {:induction false} RotationHasDistinctIds(rows: Rows)
    requires DistinctIds(rows.items)
    ensures DistinctIds(Rotation(rows))
  {
    var listing := ListItems(rows.items, false);
    LiveKeepsLiveItems(rows.items);
    ListingIsStrict(rows.items, false);
    OrderedKeepsDistinctIds(Live(rows.items));
    EnabledKeepsDistinctIds(listing);
  }

  /** The successful sends a run of attempts added to the log. */
  function NewlySent(rows: Rows, after: Rows): seq<int> {
    var before, all := SentIds(rows.logs), SentIds(after.logs);
    if |before| <= |all| then all[|before|..] else []
  }

  /**
   Fairness: of what any run of attempts sends from the first turn on, no item of the rotation has more than one
   success more than another.
   */
  lemma {:induction false} ItemsTakeTurns(rows: Rows, calls: seq<Call>, i: nat, j: nat)
    requires rows.config.Some? && Turn(rows) == 0 && DistinctIds(rows.items)
    requires i < |Rotation(rows)| && j < |Rotation(rows)|
    ensures var sent := NewlySent(rows, Attempts(rows, calls));
            Count(sent, Rotation(rows)[i].id) <= Count(sent, Rotation(rows)[j].id) + 1
  {
    hide Rotation;
    SendsFollowRotation(rows, calls);
    RotationHasDistinctIds(rows);
    var n := |SentIds(Attempts(rows, calls).logs)| - |SentIds(rows.logs)|;
    assert NewlySent(rows, Attempts(rows, calls)) == Cycle(Rotation(rows), n);
    TurnsOf(Rotation(rows), n, i);
    TurnsOf(Rotation(rows), n, j);
  }
}
