/** The turns of a dispatcher among the steps of many: an undisturbed turn, a crash, and the start after it. */
module BroadcastTurns {
  import opened Prelude
  import opened BroadcastTargets
  import opened BroadcastRun
  import Claims = BroadcastClaims

  predicate DistinctRecords(records: seq<Record>) {
    forall i, j :: 0 <= i < j < |records| ==> records[i].id != records[j].id
  }

  /** The statuses of the records, as the steps of many dispatchers see them. */
  ghost predicate ShowsStatuses(s: Claims.System, records: seq<Record>) {
    && (forall id :: id in s.statuses <==> exists i :: 0 <= i < |records| && records[i].id == id)
    && (forall i :: 0 <= i < |records| ==>
          records[i].id in s.statuses && s.statuses[records[i].id] == records[i].status)
  }

  lemma {:induction false} OneStatusShown(s: Claims.System, t: Claims.System, records: seq<Record>, i: nat, r: Record)
    requires i < |records| && DistinctRecords(records) && ShowsStatuses(s, records)
    requires r.id == records[i].id && t.statuses == s.statuses[r.id := r.status]
    ensures ShowsStatuses(t, records[i := r])
  {
    var after := records[i := r];
    forall id ensures id in t.statuses <==> exists j :: 0 <= j < |after| && after[j].id == id {
      if j :| 0 <= j < |records| && records[j].id == id {
        assert after[j].id == id;
      }
      if j :| 0 <= j < |after| && after[j].id == id {
        assert records[j].id == id;
      }
    }
  }

  lemma {:induction false} VerdictIsFinal(users: seq<User>, r: Record, env: Answers)
    ensures Verdict(users, r, env).id == r.id
    ensures Verdict(users, r, env).status == Completed || Verdict(users, r, env).status == Failed
  {
    hide Visited, Successes, Supported, Targeted, Reach, QueryError;
  }

  lemma {:induction false} StatusShown(s: Claims.System, records: seq<Record>, i: nat)
    requires ShowsStatuses(s, records) && i < |records|
    ensures records[i].id in s.statuses && s.statuses[records[i].id] == records[i].status
  {
  }

  /** Claiming: selecting and the conditional update, if nobody comes between them. */
  lemma {:induction false} ClaimIsSelectAndClaim(records: seq<Record>, s: Claims.System, worker: int)
    requires DistinctRecords(records) && ShowsStatuses(s, records) && Claims.PhaseOf(s, worker) == Claims.Idle
    requires Oldest(records, |records|).Some?
    ensures var i := Oldest(records, |records|).value;
            var id := records[i].id;
            var t := Claims.Step(Claims.Step(s, Claims.Select(worker, id)), Claims.Claim(worker));
            && ShowsStatuses(t, Claimed(records, i)) && t.claims == s.claims + [(worker, id)]
            && t.phases == s.phases[worker := Claims.Working(id)]
  {
    hide Oldest, ShowsStatuses;
    var i := Oldest(records, |records|).value;
    var id := records[i].id;
    assert id in s.statuses && s.statuses[id] == Pending by {
      StatusShown(s, records, i);
    }
    var t := Claims.Step(Claims.Step(s, Claims.Select(worker, id)), Claims.Claim(worker));
    assert t.statuses == s.statuses[id := Running];
    OneStatusShown(s, t, records, i, Claimed(records, i)[i]);
    assert Claimed(records, i) == records[i := Claimed(records, i)[i]];
  }

  /**
   An undisturbed turn whose end is stored does to the records what selecting, claiming and ending do to their
   statuses: the oldest pending record ends as its deliveries went, and the dispatcher is idle again.
   */
  lemma {:induction false} TurnIsThreeSteps(users: seq<User>, records: seq<Record>, env: Answers, s: Claims.System,
        worker: int)
    requires DistinctRecords(records) && ShowsStatuses(s, records) && Claims.PhaseOf(s, worker) == Claims.Idle
    requires Oldest(records, |records|).Some? && env.stores(End)
    ensures var i := Oldest(records, |records|).value;
            var id, end := records[i].id, Outcome(users, Claimed(records, i)[i], env);
            var t := Claims.After(s, [Claims.Select(worker, id), Claims.Claim(worker),
                                      Claims.End(worker, end.status == Completed)]);
            && ShowsStatuses(t, records[i := end]) && t.claims == s.claims + [(worker, id)]
            && t.phases == s.phases[worker := Claims.Idle]
  {
    ClaimIsSelectAndClaim(records, s, worker);
    var i := Oldest(records, |records|).value;
    hide Oldest, ShowsStatuses, Verdict;
    var id, claimed := records[i].id, Claimed(records, i);
    var end := Outcome(users, claimed[i], env);
    VerdictIsFinal(users, claimed[i], env);
    var working := Claims.Step(Claims.Step(s, Claims.Select(worker, id)), Claims.Claim(worker));
    var last := Claims.End(worker, end.status == Completed);
    Claims.AfterThree(s, Claims.Select(worker, id), Claims.Claim(worker), last);
    OneStatusShown(working, Claims.Step(working, last), claimed, i, end);
    assert claimed[i := end] == records[i := end];
  }

  /** A broadcast whose dispatcher crashes is offered again by the next start, as is every other one left running. */
  lemma {:induction false} StartOffersAgain(s: Claims.System, worker: int, starting: int, id: int)
    requires Claims.Owned(s) && Claims.PhaseOf(s, worker) == Claims.Working(id)
    ensures var crashed := Claims.Step(s, Claims.Crash(worker));
            var t := Claims.Step(crashed, Claims.Start(starting));
            && crashed.statuses == s.statuses && Claims.PhaseOf(crashed, worker) == Claims.Idle
            && Claims.IsPending(t, id) && Claims.PhaseOf(t, starting) == Claims.Idle && t.claims == s.claims
            && t.statuses.Keys == s.statuses.Keys
            && forall other :: other in s.statuses ==>
                 t.statuses[other] == if s.statuses[other] == Running then Pending else s.statuses[other]
  {
    assert s.phases[worker].Working?;
  }

  /** Enqueuing offers a broadcast that is new, and only that. */
  lemma {:induction false} EnqueuedIsOffered(s: Claims.System, id: int)
    requires id !in s.statuses
    ensures var t := Claims.Step(s, Claims.Enqueue(id));
            Claims.IsPending(t, id) && t == s.(statuses := s.statuses[id := Pending])
  {
  }
}
