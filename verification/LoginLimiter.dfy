/**
 The login limiter: a table of failed attempts that is cleaned lazily on lookup and swept at most
 once a minute. It is proved to give the verdicts of a history that never forgets anything.
 */
module LoginLimiter {
  import opened Prelude

  /** A clock reading in nanoseconds. Zero is the zero time, which no clock returns. */
  type Instant = t: int | 0 < t witness 1

  const SWEEP_INTERVAL := 60_000_000_000

  datatype LoginAttempt = LoginAttempt(count: int, windowStart: int, blockedUntil: int)

  datatype Call =
    | Allow(key: string, now: Instant)
    | RecordFailure(key: string, now: Instant)
    | RecordSuccess(key: string, now: Instant)

  // ---------- The reference: one key's failures since its last success ----------

  function OwnFailures(history: seq<Call>, key: string): seq<int> {
    if history == [] then
      []
    else
      var earlier := OwnFailures(Init(history), key);
      match Last(history)
      case Allow(_, _) => earlier
      case RecordFailure(k, now) => if k == key then earlier + [now] else earlier
      case RecordSuccess(k, _) => if k == key then [] else earlier
  }

  /** The failures counted by the window that the last failure belongs to. */
  function OpenWindow(failures: seq<int>, window: int): seq<int> {
    if failures == [] then
      []
    else
      var open := OpenWindow(Init(failures), window);
      var t := Last(failures);
      if open == [] || t - open[0] >= window then [t] else open + [t]
  }

  predicate Refused(failures: seq<int>, now: int, limit: int, window: int, blockFor: int) {
    var open := OpenWindow(failures, window);
    open != [] && |open| >= limit && now < Last(open) + blockFor
  }

  predicate NonDecreasing(history: seq<Call>) {
    forall i, j :: 0 <= i < j < |history| ==> history[i].now <= history[j].now
  }

  // ---------- The limiter ----------

  predicate Expired(entry: LoginAttempt, window: int, now: int) {
    var windowEnd := entry.windowStart + window;
    var expiresAt := if entry.blockedUntil > windowEnd then entry.blockedUntil else windowEnd;
    expiresAt != 0 && now >= expiresAt
  }

  /** An entry has expired when both its window and its block are over. */
  lemma {:induction false} ExpiredIff(entry: LoginAttempt, window: int, now: int)
    requires entry.windowStart + window > 0
    ensures Expired(entry, window, now) <==> entry.windowStart + window <= now && entry.blockedUntil <= now
  {
  }

  class Limiter {
    var attempts: map<string, LoginAttempt>
    const limit: int
    const window: int
    const blockFor: int
    var lastSweep: int
    ghost var history: seq<Call>

    /** The entry holds exactly what the key's open window says. */
    ghost predicate Matches(entry: LoginAttempt, open: seq<int>) {
      && open != []
      && entry.count == |open|
      && entry.windowStart == open[0] > 0
      && entry.blockedUntil == if |open| >= limit then Last(open) + blockFor else 0
    }

    /** A missing entry is one that no later call could tell from a present one. */
    ghost predicate Forgettable(open: seq<int>, clock: int) {
      open == [] || (clock - open[0] >= window && (|open| >= limit ==> clock >= Last(open) + blockFor))
    }

    ghost predicate Agrees(table: map<string, LoginAttempt>, key: string, clock: int)
      reads this`history
    {
      var open := OpenWindow(OwnFailures(history, key), window);
      if key in table then Matches(table[key], open) else Forgettable(open, clock)
    }

    ghost function Clock(): int
      reads this`history
    {
      if history == [] then 0 else Last(history).now
    }

    ghost predicate Valid()
      reads this
    {
      forall key :: Agrees(attempts, key, Clock())
    }

    constructor (limit: int, window: int, blockFor: int)
      ensures Valid() && history == []
      ensures this.limit == limit && this.window == window && this.blockFor == blockFor
    {
      attempts := map[];
      this.limit, this.window, this.blockFor := limit, window, blockFor;
      lastSweep := 0;
      history := [];
    }

    method SweepExpired(now: Instant)
      requires Valid() && Clock() <= now
      modifies this`attempts, this`lastSweep
      ensures forall key :: Agrees(attempts, key, now)
      ensures var due := old(lastSweep) == 0 || now - old(lastSweep) >= 60_000_000_000;
              && lastSweep == (if due then now else old(lastSweep))
              && (forall key :: key in attempts <==>
                    key in old(attempts) && !(due && Expired(old(attempts)[key], window, now)))
              && (forall key :: key in attempts ==> attempts[key] == old(attempts)[key])
    {
      forall key ensures Agrees(attempts, key, now) {
        assert Agrees(attempts, key, Clock());
      }
      if lastSweep != 0 && now - lastSweep < SWEEP_INTERVAL {
        return;
      }
      var todo := attempts.Keys;
      while todo != {}
        invariant todo <= attempts.Keys && lastSweep == old(lastSweep)
        invariant forall key :: Agrees(attempts, key, now)
        invariant forall key :: key in attempts ==> key in old(attempts) && attempts[key] == old(attempts)[key]
        invariant forall key :: key in old(attempts) ==>
                    (key in attempts <==> key in todo || !Expired(old(attempts)[key], window, now))
        decreases todo
      {
        var key :| key in todo;
        todo := todo - {key};
        label before:
        if Expired(attempts[key], window, now) {
          attempts := attempts - {key};
        }
        forall k ensures Agrees(attempts, k, now) {
          assert old@before(Agrees(attempts, k, now));
        }
      }
      lastSweep := now;
    }

    /** `later` is the second clock reading, from which the retry delay is computed. */
    method Allow(key: string, now: Instant, later: Instant) returns (retryAfter: int, allowed: bool)
      requires Valid() && Clock() <= now <= later
      modifies this
      ensures Valid() && history == old(history) + [Call.Allow(key, now)]
      ensures allowed <==> !Refused(OwnFailures(old(history), key), now, limit, window, blockFor)
      ensures retryAfter == if allowed then 0
                            else Last(OpenWindow(OwnFailures(old(history), key), window)) + blockFor - later
    {
      SweepExpired(now);
      ghost var table := attempts;
      assert Agrees(table, key, now);
      retryAfter, allowed := 0, true;
      if key in attempts {
        var entry := attempts[key];
        if entry.blockedUntil != 0 && now < entry.blockedUntil {
          retryAfter, allowed := entry.blockedUntil - later, false;
        } else if now - entry.windowStart >= window {
          attempts := attempts - {key};
        }
      }
      assert forall k :: Agrees(table, k, now) ==> Agrees(attempts, k, now);
      label before:
      history := history + [Call.Allow(key, now)];
      assert Init(history) == old@before(history);
      assert forall k :: OwnFailures(history, k) == OwnFailures(old@before(history), k);
      assert forall k :: old@before(Agrees(attempts, k, now)) ==> Agrees(attempts, k, now);
    }

    method RecordFailure(key: string, now: Instant)
      requires Valid() && Clock() <= now
      modifies this
      ensures Valid() && history == old(history) + [Call.RecordFailure(key, now)]
    {
      SweepExpired(now);
      ghost var table := attempts;
      var entry := if key in attempts then attempts[key] else LoginAttempt(0, 0, 0);
      assert Agrees(table, key, now);
      if entry.windowStart == 0 || now - entry.windowStart >= window {
        entry := LoginAttempt(1, now, 0);
      } else {
        entry := entry.(count := entry.count + 1);
      }
      if entry.count >= limit {
        entry := entry.(blockedUntil := now + blockFor);
      }
      ghost var failures := OwnFailures(history, key);
      assert Init(failures + [now]) == failures;
      assert Matches(entry, OpenWindow(failures + [now], window));
      hide OpenWindow, Matches;
      attempts := attempts[key := entry];
      label before:
      history := history + [Call.RecordFailure(key, now)];
      assert Init(history) == old@before(history);
      forall k ensures Agrees(attempts, k, now) {
        assert old@before(Agrees(table, k, now));
      }
    }

    method RecordSuccess(key: string, now: Instant)
      requires Valid() && Clock() <= now
      modifies this
      ensures Valid() && history == old(history) + [Call.RecordSuccess(key, now)]
    {
      SweepExpired(now);
      ghost var table := attempts;
      attempts := attempts - {key};
      label before:
      history := history + [Call.RecordSuccess(key, now)];
      assert Init(history) == old@before(history);
      forall k ensures Agrees(attempts, k, now) {
        assert old@before(Agrees(table, k, now));
      }
    }
  }

  // ---------- Whole call sequences ----------

  /** A limiter driven by any call sequence answers each Allow as the reference does. */
  method Replay(limit: int, window: int, blockFor: int, calls: seq<Call>) returns (verdicts: seq<bool>)
    requires NonDecreasing(calls)
    ensures |verdicts| == |calls|
    ensures forall i :: 0 <= i < |calls| && calls[i].Allow? ==>
              (verdicts[i] <==> !Refused(OwnFailures(calls[..i], calls[i].key), calls[i].now, limit, window, blockFor))
  {
    var limiter := new Limiter(limit, window, blockFor);
    verdicts := [];
    for i := 0 to |calls|
      invariant fresh(limiter) && limiter.Valid() && limiter.history == calls[..i]
      invariant limiter.limit == limit && limiter.window == window && limiter.blockFor == blockFor
      invariant |verdicts| == i
      invariant forall j :: 0 <= j < i && calls[j].Allow? ==>
                  (verdicts[j] <==>
                     !Refused(OwnFailures(calls[..j], calls[j].key), calls[j].now, limit, window, blockFor))
    {
      var verdict := true;
      match calls[i] {
        case Allow(key, now) =>
          var _, allowed := limiter.Allow(key, now, now);
          verdict := allowed;
        case RecordFailure(key, now) =>
          limiter.RecordFailure(key, now);
        case RecordSuccess(key, now) =>
          limiter.RecordSuccess(key, now);
      }
      verdicts := verdicts + [verdict];
      assert calls[..i + 1] == calls[..i] + [calls[i]];
    }
    assert calls[..|calls|] == calls;
  }

  /** The calls that name one key. */
  function OwnCalls(history: seq<Call>, key: string): seq<Call> {
    if history == [] then
      []
    else if Last(history).key == key then
      OwnCalls(Init(history), key) + [Last(history)]
    else
      OwnCalls(Init(history), key)
  }

  lemma {:induction false} OwnFailuresAreLocal(history: seq<Call>, key: string)
    ensures OwnFailures(OwnCalls(history, key), key) == OwnFailures(history, key)
  {
    if history != [] {
      OwnFailuresAreLocal(Init(history), key);
      if Last(history).key == key {
        assert Init(OwnCalls(history, key)) == OwnCalls(Init(history), key);
      }
    }
  }

  /** Two runs that agree on one key's calls agree on that key's verdict, whatever the other keys did. */
  lemma {:induction false} KeysDoNotInterfere(left: seq<Call>, right: seq<Call>, key: string, now: int, limit: int,
        window: int, blockFor: int)
    requires OwnCalls(left, key) == OwnCalls(right, key)
    ensures Refused(OwnFailures(left, key), now, limit, window, blockFor)
         == Refused(OwnFailures(right, key), now, limit, window, blockFor)
  {
    OwnFailuresAreLocal(left, key);
    OwnFailuresAreLocal(right, key);
  }

  /**
   The open window is a suffix of the failures, reaching back to the one that found the window before
   it run out.
   */
  lemma {:induction false} OpenWindowIsSuffix(failures: seq<int>, window: int)
    requires failures != []
    ensures var open := OpenWindow(failures, window);
            && 0 < |open| <= |failures|
            && open == failures[|failures| - |open|..]
            && forall i :: 0 < i < |open| ==> open[i] - open[0] < window
    ensures var open := OpenWindow(failures, window);
            var older := failures[..|failures| - |open|];
            older != [] ==> OpenWindow(older, window) != [] && open[0] - OpenWindow(older, window)[0] >= window
  {
    if |failures| > 1 {
      var shorter := Init(failures);
      OpenWindowIsSuffix(shorter, window);
      var open := OpenWindow(failures, window);
      if open == [Last(failures)] {
        assert failures[..|failures| - 1] == shorter;
      } else {
        assert failures[..|failures| - |open|] == shorter[..|failures| - |open|];
      }
    }
  }

  /** What a call does to the failures that count against a key: its own failure adds one, its success clears them. */
  lemma {:induction false} CallsCount(history: seq<Call>, key: string, other: string, now: Instant)
    ensures OwnFailures(history + [RecordFailure(key, now)], key) == OwnFailures(history, key) + [now]
    ensures OwnFailures(history + [RecordSuccess(key, now)], key) == []
    ensures OwnFailures(history + [Allow(other, now)], key) == OwnFailures(history, key)
    ensures other != key ==> OwnFailures(history + [RecordFailure(other, now)], key) == OwnFailures(history, key)
    ensures other != key ==> OwnFailures(history + [RecordSuccess(other, now)], key) == OwnFailures(history, key)
  {
    assert Init(history + [RecordFailure(key, now)]) == history;
    assert Init(history + [RecordSuccess(key, now)]) == history;
    assert Init(history + [Allow(other, now)]) == history;
    assert Init(history + [RecordFailure(other, now)]) == history;
    assert Init(history + [RecordSuccess(other, now)]) == history;
  }

  lemma {:induction false} BurstIsWindow(older: seq<int>, burst: seq<int>, window: int)
    requires burst != [] && forall i :: 0 < i < |burst| ==> burst[i] - burst[0] < window
    requires older != [] ==> burst[0] - OpenWindow(older, window)[0] >= window
    ensures OpenWindow(older + burst, window) == burst
  {
    assert Init(older + burst) == older + Init(burst);
    if |burst| == 1 {
      assert older + Init(burst) == older;
    } else {
      BurstIsWindow(older, Init(burst), window);
    }
  }

  /**
   Failures within one window of the first, which itself lies a window or more after the start of the one before, shut
   the key out exactly from the limit on, and until the block after the last of them is over.
   */
  lemma {:induction false} BurstIsRefusedIff(older: seq<int>, burst: seq<int>, now: int, limit: int, window: int,
        blockFor: int)
    requires burst != [] && forall i :: 0 < i < |burst| ==> burst[i] - burst[0] < window
    requires older != [] ==> burst[0] - OpenWindow(older, window)[0] >= window
    ensures Refused(older + burst, now, limit, window, blockFor)
       <==> |burst| >= limit && now < burst[|burst| - 1] + blockFor
  {
    BurstIsWindow(older, burst, window);
  }

  /** A key without failures, and so one whose last failure was forgiven, is let in. */
  lemma {:induction false} SuccessForgives(history: seq<Call>, key: string, last: Instant, now: int, limit: int,
        window: int, blockFor: int)
    ensures !Refused(OwnFailures(history + [RecordSuccess(key, last)], key), now, limit, window, blockFor)
  {
    CallsCount(history, key, key, last);
  }

  /**
   A failure recorded at `t` while the key is refused normally makes the block last until `t + blockFor`. It lifts
   the block instead exactly when the open window has already run out and one failure alone does not reach the
   limit. The login handler asks before it records, so this takes two logins at once: one that was let in before
   the other's failure closed the key, and fails after it.
   */
  lemma {:induction false} FailureLiftsBlockIff(failures: seq<int>, t: int, now: int, limit: int, window: int,
        blockFor: int)
    requires Refused(failures, t, limit, window, blockFor)
    requires t <= now < t + blockFor
    ensures !Refused(failures + [t], now, limit, window, blockFor)
       <==> t - OpenWindow(failures, window)[0] >= window && limit > 1
  {
    assert Init(failures + [t]) == failures;
  }
}
