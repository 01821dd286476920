/** What a node's options come to, which groups a round lists, and what it does to each group. */
module AutoMessageRounds {
  import opened Prelude
  import opened AutoMessageRows
  import opened AutoMessageBacklog

  /** A node without usable options takes 500 groups a round, holds a lock for 120 seconds, and is the only shard. */
  lemma {:induction false} OptionsBecome(o: Options)
    ensures var r := Configured(o);
            && r.batchSize == (if o.batchSize > 0 then o.batchSize else 500)
            && r.lockTtl == (if o.lockTtl > 0 then o.lockTtl else 120)
            && r.shardTotal == (if o.shardTotal > 0 then o.shardTotal else 1)
            && r.shardIndex == (if 0 <= o.shardIndex < r.shardTotal then o.shardIndex else 0)
  {
  }

  // ---------- Listing ----------

  /** Enabled, due by `now`, and left by the shard count at the place of the shard, if there is more than one shard. */
  predicate Wanted(g: Group, now: int, total: int, index: int) {
    && g.rows.config.Some?
    && g.rows.config.value.enabled
    && g.rows.config.value.nextSendAt.Some?
    && g.rows.config.value.nextSendAt.value <= now
    && (total <= 1 || (if g.groupId >= 0 then g.groupId % total == index else -g.groupId % total == -index))
  }

  function TimeOf(g: Group): int
    requires g.rows.config.Some? && g.rows.config.value.nextSendAt.Some?
  {
    g.rows.config.value.nextSendAt.value
  }

  lemma {:induction false} DueInIsWanted(db: seq<Group>, now: int, total: int, index: int, i: nat)
    ensures DueIn(db, now, total, index, i) <==> i < |db| && Wanted(db[i], now, total, index)
  {
  }

  lemma {:induction false} OneMissing(part: set<nat>, whole: set<nat>, j: nat)
    requires part <= whole && j in whole && j !in part
    ensures |part| < |whole|
  {
    var rest := whole - part;
    assert whole == part + rest;
    assert rest == {j} + (rest - {j});
  }

  /** A wanted group that is not listed is one too many. */
  lemma {:induction false} LeftOutOfFullBatch(db: seq<Group>, now: int, limit: int, total: int, index: int, j: nat)
    requires j < |db| && j !in ListDue(db, now, limit, total, index) && Wanted(db[j], now, total, index)
    ensures |ListDue(db, now, limit, total, index)| == if limit <= 0 then 500 else limit
  {
    ListDueIsEarliest(db, now, limit, total, index);
    var listed := ListDue(db, now, limit, total, index);
    DueInIsWanted(db, now, total, index, j);
    hide ListDue, EarliestDue, DueIn, Wanted;
    ListedAreDue(db, now, total, index, listed);
    OneMissing(Positions(listed), DueSet(db, now, total, index), j);
  }

  /**
   The groups a round lists are wanted and stand in the order of their times, and of their positions where times are
   equal. A wanted group is left out only for a full batch of groups that come before it.
   */
  lemma {:induction false} ListedInOrder(db: seq<Group>, now: int, limit: int, total: int, index: int, k: nat, l: nat,
        j: nat)
    requires var listed := ListDue(db, now, limit, total, index); k <= l < |listed| && j < |db|
    ensures var listed := ListDue(db, now, limit, total, index);
            var a, b := listed[k], listed[l];
            && a < |db| && Wanted(db[a], now, total, index) && b < |db| && Wanted(db[b], now, total, index)
            && (k < l ==> TimeOf(db[a]) < TimeOf(db[b]) || (TimeOf(db[a]) == TimeOf(db[b]) && a < b))
            && |listed| <= (if limit <= 0 then 500 else limit)
            && (j !in listed && Wanted(db[j], now, total, index) ==>
                  && |listed| == (if limit <= 0 then 500 else limit)
                  && (TimeOf(db[b]) < TimeOf(db[j]) || (TimeOf(db[b]) == TimeOf(db[j]) && b < j)))
  {
    ListDueIsEarliest(db, now, limit, total, index);
    var listed := ListDue(db, now, limit, total, index);
    if j !in listed && Wanted(db[j], now, total, index) {
      LeftOutOfFullBatch(db, now, limit, total, index, j);
    }
    hide ListDue, DueSet, InShard, Wanted;
    DueInIsWanted(db, now, total, index, listed[k]);
    DueInIsWanted(db, now, total, index, listed[l]);
    DueInIsWanted(db, now, total, index, j);
  }

  // ---------- Rounds ----------

  predicate DistinctGroups(db: seq<Group>) {
    forall i, j :: 0 <= i < j < |db| ==> db[i].groupId != db[j].groupId
  }

  /** The lock of a group can be had: the service answers, and no lease on it lasts beyond the time it is asked. */
  predicate CanLock(holders: map<int, Lease>, groupId: int, env: Environment) {
    env.acquires(groupId) && (groupId !in holders || holders[groupId].until <= env.clock(groupId))
  }

  /** The lease a group's lock is left with. */
  ghost predicate LockLeft(after: map<int, Lease>, groupId: int, request: int, ttl: int, env: Environment) {
    if env.releases(groupId) then groupId !in after
    else groupId in after && after[groupId] == Lease(request, env.clock(groupId) + ttl)
  }

  ghost predicate SameLock(before: map<int, Lease>, after: map<int, Lease>, groupId: int) {
    (groupId in after <==> groupId in before) && (groupId in before ==> after[groupId] == before[groupId])
  }

  /** What a round does to one group: what the store makes of its rows, once, or nothing. */
  ghost predicate IsAttempted(before: Group, after: Group, now: int, env: Environment) {
    && after.groupId == before.groupId
    && after.rows == match Processed(before.rows, env.active(before.groupId), now, env.send)
                     case Ok(rows) => rows
                     case Err(_) => before.rows
  }

  lemma {:induction false} StepAttempts(s: RoundState, i: nat, request: int, ttl: int, now: int, env: Environment,
        j: nat)
    requires DistinctGroups(s.db) && i < |s.db| && j < |s.db|
    ensures var r := RoundStep(s, i, request, ttl, now, env);
            var groupId := s.db[j].groupId;
            if j == i && CanLock(s.holders, groupId, env)
            then IsAttempted(s.db[j], r.db[j], now, env) && LockLeft(r.holders, groupId, request, ttl, env)
            else r.db[j] == s.db[j] && SameLock(s.holders, r.holders, groupId)
  {
    hide Processed;
  }

  lemma {:induction false} SameLockAsItself(holders: map<int, Lease>, groupId: int)
    ensures SameLock(holders, holders, groupId)
  {
  }

  lemma {:induction false} LockCarries(start: map<int, Lease>, mid: map<int, Lease>, end: map<int, Lease>, groupId: int,
        request: int, ttl: int, env: Environment)
    ensures SameLock(start, mid, groupId) ==> (CanLock(mid, groupId, env) <==> CanLock(start, groupId, env))
    ensures SameLock(start, mid, groupId) && SameLock(mid, end, groupId) ==> SameLock(start, end, groupId)
    ensures LockLeft(mid, groupId, request, ttl, env) && SameLock(mid, end, groupId) ==>
              LockLeft(end, groupId, request, ttl, env)
  {
  }

  /**
   A round under any locks: a listed group whose lock can be had is attempted once, and its lock is released or left
   with a lease of its own; any other group keeps its rows and its lock.
   */
  lemma {:induction false} RoundAttemptsListed(s: RoundState, listed: seq<nat>, requests: seq<int>, ttl: int, now: int,
        env: Environment, j: nat)
    requires DistinctGroups(s.db) && j < |s.db| && |requests| >= |listed|
    requires forall k, l :: 0 <= k < l < |listed| ==> listed[k] != listed[l]
    requires forall k :: 0 <= k < |listed| ==> listed[k] < |s.db|
    ensures var r := Round(s, listed, requests, ttl, now, env);
            var groupId := s.db[j].groupId;
            if j in listed && CanLock(s.holders, groupId, env)
            then && IsAttempted(s.db[j], r.db[j], now, env)
                 && exists k :: && 0 <= k < |listed| && listed[k] == j
                                && LockLeft(r.holders, groupId, requests[k], ttl, env)
            else r.db[j] == s.db[j] && SameLock(s.holders, r.holders, groupId)
  {
    hide IsAttempted, RoundStep, CanLock, LockLeft, SameLock;
    SameLockAsItself(s.holders, s.db[j].groupId);
    if listed != [] {
      var front, last := Init(listed), Last(listed);
      var before := Round(s, front, requests, ttl, now, env);
      RoundAttemptsListed(s, front, requests, ttl, now, env, j);
      assert listed == front + [last] && last !in front;
      assert DistinctGroups(before.db);
      StepAttempts(before, last, requests[|listed| - 1], ttl, now, env, j);
      var end, groupId := Round(s, listed, requests, ttl, now, env), s.db[j].groupId;
      LockCarries(s.holders, before.holders, end.holders, groupId, requests[|listed| - 1], ttl, env);
      if j != last && j in front && CanLock(s.holders, groupId, env) {
        var k :| 0 <= k < |front| && front[k] == j
                 && LockLeft(before.holders, groupId, requests[k], ttl, env);
        assert listed[k] == j;
        LockCarries(s.holders, before.holders, end.holders, groupId, requests[k], ttl, env);
      }
      if j == last {
        assert listed[|listed| - 1] == j;
      }
    }
  }
}
