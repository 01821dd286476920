/**
 One round of a scheduler node over many groups: which due configurations it lists, how it locks each
 group in turn, and why the backlog drains.
 */
module AutoMessageBacklog {
  import opened Prelude
  import opened AutoMessageRows

  datatype Group = Group(groupId: int, rows: Rows)

  const DEFAULT_BATCH_SIZE := 500
  const DEFAULT_LOCK_TTL := 120

  datatype Options = Options(batchSize: int, shardTotal: int, shardIndex: int, lockTtl: int)

  /** What a node makes of its options when it starts. */
  function Configured(o: Options): (r: Options)
    ensures r.batchSize > 0 && r.lockTtl > 0 && 0 <= r.shardIndex < r.shardTotal
    ensures o.batchSize > 0 && o.lockTtl > 0 && 0 <= o.shardIndex < o.shardTotal ==> r == o
  {
    var total := if o.shardTotal <= 0 then 1 else o.shardTotal;
    Options(if o.batchSize <= 0 then DEFAULT_BATCH_SIZE else o.batchSize,
            total,
            if o.shardIndex < 0 || o.shardIndex >= total then 0 else o.shardIndex,
            if o.lockTtl <= 0 then DEFAULT_LOCK_TTL else o.lockTtl)
  }

  // ---------- Shards ----------

  /** SQL's MOD takes the sign of its first argument. */
  function Mod(a: int, n: int): int
    requires n > 0
  {
    if a < 0 then -(-a % n) else a % n
  }

  predicate InShard(groupId: int, total: int, index: int) {
    total > 1 ==> Mod(groupId, total) == index
  }

  ghost predicate HasOneShard(groupId: int, total: int) {
    exists index ::
      && 0 <= index < total
      && InShard(groupId, total, index)
      && (forall other :: 0 <= other < total && InShard(groupId, total, other) ==> other == index)
  }

  /** A group is in exactly one shard exactly when its id is not negative or is a multiple of the shard count. */
  lemma {:induction false} ShardsPartitionIff(groupId: int, total: int)
    requires total > 0
    ensures HasOneShard(groupId, total) <==> total == 1 || groupId >= 0 || -groupId % total == 0
  {
    if total == 1 {
      assert InShard(groupId, total, 0);
    } else if groupId >= 0 || -groupId % total == 0 {
      var index := Mod(groupId, total);
      assert 0 <= index < total && InShard(groupId, total, index);
    } else {
      assert Mod(groupId, total) < 0;
    }
  }

  // ---------- Listing ----------

  predicate DueIn(db: seq<Group>, now: int, total: int, index: int, i: nat) {
    && i < |db|
    && db[i].rows.config.Some?
    && Due(db[i].rows.config.value, now)
    && InShard(db[i].groupId, total, index)
  }

  /** Earlier next time first, then the smaller id; positions follow ids. */
  predicate Sooner(db: seq<Group>, i: nat, j: nat)
    requires i < |db| && j < |db|
    requires db[i].rows.config.Some? && db[i].rows.config.value.nextSendAt.Some?
    requires db[j].rows.config.Some? && db[j].rows.config.value.nextSendAt.Some?
  {
    var a, b := db[i].rows.config.value.nextSendAt.value, db[j].rows.config.value.nextSendAt.value;
    a < b || (a == b && i < j)
  }

  /** The soonest due position below `n` that is not taken yet. */
  function Soonest(db: seq<Group>, now: int, total: int, index: int, taken: seq<nat>, n: nat): (r: Option<nat>)
    requires n <= |db|
    ensures r.Some? ==> r.value < n && DueIn(db, now, total, index, r.value) && r.value !in taken
    ensures r.Some? ==> forall j: nat :: j < n && j !in taken && DueIn(db, now, total, index, j) ==>
              j == r.value || Sooner(db, r.value, j)
    ensures r == None ==> forall j: nat :: j < n && DueIn(db, now, total, index, j) ==> j in taken
  {
    if n == 0 then None
    else
      var best := Soonest(db, now, total, index, taken, n - 1);
      if n - 1 in taken || !DueIn(db, now, total, index, n - 1) then best
      else if best == None || Sooner(db, n - 1, best.value) then Some(n - 1)
      else best
  }

  /** ORDER BY next_send_at, id LIMIT `limit`, continued from the positions already listed. */
  function ListFrom(db: seq<Group>, now: int, total: int, index: int, listed: seq<nat>, limit: nat): seq<nat>
    decreases limit
  {
    if limit == 0 then listed
    else
      match Soonest(db, now, total, index, listed, |db|)
      case None => listed
      case Some(i) => ListFrom(db, now, total, index, listed + [i], limit - 1)
  }

  function ListDue(db: seq<Group>, now: int, limit: int, total: int, index: int): seq<nat> {
    ListFrom(db, now, total, index, [], if limit <= 0 then DEFAULT_BATCH_SIZE else limit)
  }

  function DueSet(db: seq<Group>, now: int, total: int, index: int): set<nat> {
    set i: nat | i < |db| && DueIn(db, now, total, index, i)
  }

  function Positions(listed: seq<nat>): set<nat> {
    set i | i in listed
  }

  /** Due positions, all different, and sooner than every due position left out. */
  ghost predicate EarliestDue(db: seq<Group>, now: int, total: int, index: int, listed: seq<nat>) {
    && (forall k :: 0 <= k < |listed| ==> DueIn(db, now, total, index, listed[k]))
    && (forall k, l :: 0 <= k < l < |listed| ==> listed[k] != listed[l] && Sooner(db, listed[k], listed[l]))
    && (forall k :: 0 <= k < |listed| ==>
          forall j: nat :: j < |db| && j !in listed && DueIn(db, now, total, index, j) ==> Sooner(db, listed[k], j))
  }

  lemma {:induction false} PositionsCount(listed: seq<nat>)
    requires forall k, l :: 0 <= k < l < |listed| ==> listed[k] != listed[l]
    ensures |Positions(listed)| == |listed|
  {
    if listed != [] {
      PositionsCount(Init(listed));
      assert listed == Init(listed) + [Last(listed)];
      assert Last(listed) !in Init(listed);
      assert Positions(listed) == Positions(Init(listed)) + {Last(listed)};
    }
  }

  lemma {:induction false} ListOneMore(db: seq<Group>, now: int, total: int, index: int, listed: seq<nat>, i: nat)
    requires EarliestDue(db, now, total, index, listed)
    requires Soonest(db, now, total, index, listed, |db|) == Some(i)
    ensures EarliestDue(db, now, total, index, listed + [i])
  {
    hide Soonest;
    var longer := listed + [i];
    forall k | 0 <= k < |longer|
      ensures forall j: nat :: j < |db| && j !in longer && DueIn(db, now, total, index, j) ==> Sooner(db, longer[k], j)
    {
      forall j: nat | j < |db| && j !in longer && DueIn(db, now, total, index, j) ensures Sooner(db, longer[k], j) {
        assert j !in listed && j != i;
      }
    }
  }

  lemma {:induction false} ListedIsAll(db: seq<Group>, now: int, total: int, index: int, listed: seq<nat>)
    requires EarliestDue(db, now, total, index, listed)
    requires Soonest(db, now, total, index, listed, |db|) == None
    ensures Positions(listed) == DueSet(db, now, total, index)
  {
    hide Soonest;
  }

  lemma {:induction false} ListFromIsEarliest(db: seq<Group>, now: int, total: int, index: int, listed: seq<nat>,
        limit: nat)
    requires EarliestDue(db, now, total, index, listed)
    ensures var r := ListFrom(db, now, total, index, listed, limit);
            && EarliestDue(db, now, total, index, r)
            && listed <= r && |r| <= |listed| + limit
            && (|r| == |listed| + limit || Positions(r) == DueSet(db, now, total, index))
    decreases limit
  {
    hide EarliestDue;
    if limit > 0 {
      match Soonest(db, now, total, index, listed, |db|) {
        case None =>
          ListedIsAll(db, now, total, index, listed);
        case Some(i) =>
          ListOneMore(db, now, total, index, listed, i);
          ListFromIsEarliest(db, now, total, index, listed + [i], limit - 1);
      }
    }
  }

  lemma {:induction false} ListedAreDue(db: seq<Group>, now: int, total: int, index: int, listed: seq<nat>)
    requires EarliestDue(db, now, total, index, listed)
    ensures Positions(listed) <= DueSet(db, now, total, index) && |Positions(listed)| == |listed|
  {
    PositionsCount(listed);
  }

  lemma {:induction false} NothingListedIsEarliest(db: seq<Group>, now: int, total: int, index: int)
    ensures EarliestDue(db, now, total, index, [])
  {
  }

  /** The listing holds the soonest due configurations of the shard, as many as the batch allows. */
  lemma {:induction false} ListDueIsEarliest(db: seq<Group>, now: int, limit: int, total: int, index: int)
    ensures var listed := ListDue(db, now, limit, total, index);
            var batch := if limit <= 0 then DEFAULT_BATCH_SIZE else limit;
            var due := |DueSet(db, now, total, index)|;
            && EarliestDue(db, now, total, index, listed)
            && |listed| == if due < batch then due else batch
  {
    var batch := if limit <= 0 then DEFAULT_BATCH_SIZE else limit;
    var listed := ListDue(db, now, limit, total, index);
    NothingListedIsEarliest(db, now, total, index);
    hide EarliestDue, ListFrom, DueSet;
    ListFromIsEarliest(db, now, total, index, [], batch);
    ListedAreDue(db, now, total, index, listed);
    var rest := DueSet(db, now, total, index) - Positions(listed);
    assert DueSet(db, now, total, index) == Positions(listed) + rest;
  }

  // ---------- Locks ----------

  /** The value of a Redis key, and when the key expires. */
  datatype Lease = Lease(request: int, until: int)

  /** Nobody holds the key: it was never set, or it has expired. */
  predicate Free(holders: map<int, Lease>, groupId: int, now: int) {
    groupId in holders ==> holders[groupId].until <= now
  }

  class LockTable {
    var holders: map<int, Lease>

    constructor ()
      ensures holders == map[]
    {
      holders := map[];
    }

    /** SET NX EX; None if the lock service fails. */
    method Acquire(groupId: int, request: int, ttl: int, now: int, works: bool) returns (locked: Option<bool>)
      modifies this
      ensures locked == if works then Some(Free(old(holders), groupId, now)) else None
      ensures holders == if locked == Some(true) then old(holders)[groupId := Lease(request, now + ttl)]
                         else old(holders)
    {
      if !works {
        return None;
      }
      if groupId in holders && now < holders[groupId].until {
        return Some(false);
      }
      holders := holders[groupId := Lease(request, now + ttl)];
      return Some(true);
    }

    /**
     Deletes the key if it still holds the request id, and if the lock service can be reached. One that has expired
     under this request is gone already.
     */
    method Release(groupId: int, request: int, works: bool)
      modifies this
      ensures holders == if works && groupId in old(holders) && old(holders)[groupId].request == request
                         then old(holders) - {groupId} else old(holders)
    {
      if works && groupId in holders && holders[groupId].request == request {
        holders := holders - {groupId};
      }
    }
  }

  // ---------- One round ----------

  /**
   What the group table, the message service and the lock service answer while a round runs, and the lock service's
   clock when each lock is asked for.
   */
  datatype Environment = Environment(
    active: int -> bool, send: Candidate -> SendResult, clock: int -> int, acquires: int -> bool, releases: int -> bool)

  predicate LocksWork(env: Environment, db: seq<Group>) {
    forall i :: 0 <= i < |db| ==> env.acquires(db[i].groupId) && env.releases(db[i].groupId)
  }

  function ProcessedGroup(g: Group, now: int, env: Environment): Group {
    match Processed(g.rows, env.active(g.groupId), now, env.send)
    case Err(_) => g
    case Ok(rows) => g.(rows := rows)
  }

  datatype RoundState = RoundState(db: seq<Group>, holders: map<int, Lease>)

  /** One listed group: skipped if its lock cannot be had; a lock that cannot be released stays until it expires. */
  function RoundStep(s: RoundState, i: nat, request: int, ttl: int, now: int, env: Environment): (r: RoundState)
    requires i < |s.db|
    ensures |r.db| == |s.db|
    ensures forall j :: 0 <= j < |s.db| ==> r.db[j].groupId == s.db[j].groupId
  {
    var groupId := s.db[i].groupId;
    if !Free(s.holders, groupId, env.clock(groupId)) || !env.acquires(groupId) then s
    else RoundState(s.db[i := ProcessedGroup(s.db[i], now, env)],
                    if env.releases(groupId) then s.holders - {groupId}
                    else s.holders[groupId := Lease(request, env.clock(groupId) + ttl)])
  }

  /** The listed groups in turn, each under its own request id. */
  function Round(s: RoundState, listed: seq<nat>, requests: seq<int>, ttl: int, now: int, env: Environment)
    : (r: RoundState)
    requires |requests| >= |listed| && forall k :: 0 <= k < |listed| ==> listed[k] < |s.db|
    ensures |r.db| == |s.db|
    ensures forall i :: 0 <= i < |s.db| ==> r.db[i].groupId == s.db[i].groupId
  {
    if listed == [] then s
    else RoundStep(Round(s, Init(listed), requests, ttl, now, env), Last(listed), requests[|listed| - 1], ttl, now, env)
  }

  method ProcessOne(db: seq<Group>, i: nat, locks: LockTable, request: int, ttl: int, now: int, env: Environment)
    returns (after: seq<Group>)
    requires i < |db|
    modifies locks
    ensures RoundState(after, locks.holders) == RoundStep(RoundState(db, old(locks.holders)), i, request, ttl, now, env)
  {
    hide ProcessedGroup;
    after := db;
    var groupId := db[i].groupId;
    var locked := locks.Acquire(groupId, request, ttl, env.clock(groupId), env.acquires(groupId));
    if locked == Some(true) {
      after := after[i := ProcessedGroup(after[i], now, env)];
      locks.Release(groupId, request, env.releases(groupId));
      assert env.releases(groupId) ==> locks.holders == old(locks.holders) - {groupId};
    }
  }

  lemma {:induction false} DueSetIsSmall(db: seq<Group>, now: int, total: int, index: int, n: nat)
    requires n <= |db|
    ensures |set i: nat | i < n && DueIn(db, now, total, index, i)| <= n
    ensures DueSet(db, now, total, index) == set i: nat | i < |db| && DueIn(db, now, total, index, i)
  {
    hide DueIn;
    if n > 0 {
      DueSetIsSmall(db, now, total, index, n - 1);
      var smaller := set i: nat | i < n - 1 && DueIn(db, now, total, index, i);
      var larger := set i: nat | i < n && DueIn(db, now, total, index, i);
      if DueIn(db, now, total, index, n - 1) {
        assert larger == smaller + {n - 1};
      } else {
        assert larger == smaller;
      }
    }
  }

  lemma {:induction false} ListedFits(db: seq<Group>, now: int, total: int, index: int, listed: seq<nat>)
    requires EarliestDue(db, now, total, index, listed)
    ensures |listed| <= |db| && forall k :: 0 <= k < |listed| ==> listed[k] < |db|
  {
    ListedAreDue(db, now, total, index, listed);
    DueSetIsSmall(db, now, total, index, |db|);
    var rest := DueSet(db, now, total, index) - Positions(listed);
    assert DueSet(db, now, total, index) == Positions(listed) + rest;
  }

  /** One round of a node: list, then lock, process and unlock each listed group. */
  method ProcessDue(
      db: seq<Group>, locks: LockTable, options: Options, now: int, env: Environment, requests: seq<int>)
    returns (after: seq<Group>)
    requires |requests| >= |db|
    modifies locks
    ensures var listed := ListDue(db, now, options.batchSize, options.shardTotal, options.shardIndex);
            && |listed| <= |db| && (forall k :: 0 <= k < |listed| ==> listed[k] < |db|)
            && RoundState(after, locks.holders)
            == Round(RoundState(db, old(locks.holders)), listed, requests, options.lockTtl, now, env)
  {
    hide ListDue, EarliestDue, ProcessedGroup, DueSet, RoundStep;
    var listed := ListDue(db, now, options.batchSize, options.shardTotal, options.shardIndex);
    ListDueIsEarliest(db, now, options.batchSize, options.shardTotal, options.shardIndex);
    ListedFits(db, now, options.shardTotal, options.shardIndex, listed);
    ghost var start := RoundState(db, locks.holders);
    after := db;
    for k := 0 to |listed|
      invariant |after| == |db|
      invariant RoundState(after, locks.holders) == Round(start, listed[..k], requests, options.lockTtl, now, env)
    {
      assert Init(listed[..k + 1]) == listed[..k];
      after := ProcessOne(after, listed[k], locks, requests[k], options.lockTtl, now, env);
    }
    assert listed[..|listed|] == listed;
  }

  // ---------- Draining ----------

  ghost predicate Intervals(db: seq<Group>) {
    forall i :: 0 <= i < |db| && db[i].rows.config.Some? ==> db[i].rows.config.value.intervalMinutes > 0
  }

  /** Every branch of an attempt leaves the configuration not due at the same reading. */
  lemma {:induction false} ProcessedIsNotDue(g: Group, now: int, env: Environment)
    requires g.rows.config.Some? && g.rows.config.value.intervalMinutes > 0
    ensures var after := ProcessedGroup(g, now, env).rows;
            after.config.Some? && !Due(after.config.value, now)
            && after.config.value.intervalMinutes == g.rows.config.value.intervalMinutes
  {
    hide Rotation, CandidateOf;
  }

  lemma {:induction false} RoundProcessesListed(
      db: seq<Group>, listed: seq<nat>, requests: seq<int>, ttl: int, now: int, env: Environment, i: nat)
    requires LocksWork(env, db) && i < |db| && |requests| >= |listed|
    requires forall k, l :: 0 <= k < l < |listed| ==> listed[k] != listed[l]
    requires forall k :: 0 <= k < |listed| ==> listed[k] < |db|
    ensures var after := Round(RoundState(db, map[]), listed, requests, ttl, now, env);
            && after.holders == map[]
            && after.db[i] == if i in listed then ProcessedGroup(db[i], now, env) else db[i]
  {
    hide ProcessedGroup;
    if listed != [] {
      RoundProcessesListed(db, Init(listed), requests, ttl, now, env, i);
      RoundProcessesListed(db, Init(listed), requests, ttl, now, env, Last(listed));
      assert Last(listed) !in Init(listed);
      assert listed == Init(listed) + [Last(listed)];
    }
  }

  /** One round over all due groups with every lock free, and the groups after it. */
  function FreeRound(
      db: seq<Group>, now: int, limit: int, total: int, index: int, requests: seq<int>, ttl: int, env: Environment)
    : (r: seq<Group>)
    requires |requests| >= |db|
    ensures |r| == |db|
    ensures forall i :: 0 <= i < |db| ==> r[i].groupId == db[i].groupId
  {
    var listed := ListDue(db, now, limit, total, index);
    ListDueIsEarliest(db, now, limit, total, index);
    ListedFits(db, now, total, index, listed);
    Round(RoundState(db, map[]), listed, requests, ttl, now, env).db
  }

  lemma {:induction false} DueAfterRound(
      db: seq<Group>, now: int, limit: int, total: int, index: int, requests: seq<int>, ttl: int, env: Environment)
    requires Intervals(db) && LocksWork(env, db) && |requests| >= |db|
    ensures var after := FreeRound(db, now, limit, total, index, requests, ttl, env);
            && DueSet(after, now, total, index)
            == DueSet(db, now, total, index) - Positions(ListDue(db, now, limit, total, index))
            && Intervals(after) && LocksWork(env, after)
  {
    hide ProcessedGroup, ListDue, Round;
    var listed := ListDue(db, now, limit, total, index);
    var after := FreeRound(db, now, limit, total, index, requests, ttl, env);
    ListDueIsEarliest(db, now, limit, total, index);
    ListedFits(db, now, total, index, listed);
    forall i: nat | i < |db|
      ensures DueIn(after, now, total, index, i) <==> DueIn(db, now, total, index, i) && i !in listed
      ensures after[i].rows.config.Some? ==> after[i].rows.config.value.intervalMinutes > 0
    {
      RoundProcessesListed(db, listed, requests, ttl, now, env, i);
      if i in listed {
        ProcessedIsNotDue(db[i], now, env);
      }
    }
  }

  /**
   With the locks free and working, one round over D due configurations with a batch of B leaves max(0, D - B) due
   at the same reading, and none of them sooner than one it processed.
   */
  lemma {:induction false} RoundDrains(
      db: seq<Group>, now: int, limit: int, total: int, index: int, requests: seq<int>, ttl: int, env: Environment)
    requires Intervals(db) && LocksWork(env, db) && |requests| >= |db|
    ensures var listed := ListDue(db, now, limit, total, index);
            var after := FreeRound(db, now, limit, total, index, requests, ttl, env);
            var batch := if limit <= 0 then DEFAULT_BATCH_SIZE else limit;
            var due := |DueSet(db, now, total, index)|;
            && |DueSet(after, now, total, index)| == (if due < batch then 0 else due - batch)
            && (forall j: nat :: j in DueSet(after, now, total, index) ==>
                  && j in DueSet(db, now, total, index)
                  && (forall k :: 0 <= k < |listed| ==>
                        DueIn(db, now, total, index, listed[k]) && Sooner(db, listed[k], j)))
  {
    hide ListDue, FreeRound;
    var listed := ListDue(db, now, limit, total, index);
    ListDueIsEarliest(db, now, limit, total, index);
    DueAfterRound(db, now, limit, total, index, requests, ttl, env);
    ListedAreDue(db, now, total, index, listed);
    var due := DueSet(db, now, total, index);
    assert due == Positions(listed) + (due - Positions(listed));
  }

  function Rounds(
      db: seq<Group>, now: int, limit: int, total: int, index: int, requests: seq<int>, ttl: int, env: Environment,
      n: nat)
    : (r: seq<Group>)
    requires |requests| >= |db|
    ensures |r| == |db|
  {
    if n == 0 then db
    else
      FreeRound(Rounds(db, now, limit, total, index, requests, ttl, env, n - 1), now, limit, total, index, requests,
                ttl, env)
  }

  /** What is left of `due` after one more batch. */
  lemma {:induction false} OneBatchMore(due: nat, limit: nat, n: nat)
    requires n > 0
    ensures var before := if due < (n - 1) * limit then 0 else due - (n - 1) * limit;
            (if before < limit then 0 else before - limit) == (if due < n * limit then 0 else due - n * limit)
  {
    assert n * limit == (n - 1) * limit + limit;
  }

  /** Nothing starves: n rounds leave max(0, D - n * B) due. */
  lemma {:induction false} RoundsDrain(
      db: seq<Group>, now: int, limit: nat, total: int, index: int, requests: seq<int>, ttl: int, env: Environment,
      n: nat)
    requires Intervals(db) && LocksWork(env, db) && limit > 0 && |requests| >= |db|
    ensures |DueSet(Rounds(db, now, limit, total, index, requests, ttl, env, n), now, total, index)|
         == if |DueSet(db, now, total, index)| < n * limit then 0 else |DueSet(db, now, total, index)| - n * limit
    ensures Intervals(Rounds(db, now, limit, total, index, requests, ttl, env, n))
    ensures LocksWork(env, Rounds(db, now, limit, total, index, requests, ttl, env, n))
  {
    hide DueSet, ListDue, FreeRound, Intervals, LocksWork;
    if n > 0 {
      RoundsDrain(db, now, limit, total, index, requests, ttl, env, n - 1);
      var before := Rounds(db, now, limit, total, index, requests, ttl, env, n - 1);
      RoundDrains(before, now, limit, total, index, requests, ttl, env);
      DueAfterRound(before, now, limit, total, index, requests, ttl, env);
      OneBatchMore(|DueSet(db, now, total, index)|, limit, n);
    } else {
      assert 0 * limit == 0;
    }
  }
}
