/**
 Dispatchers competing for pending broadcasts: selecting the oldest, claiming it by compare-and-set, ending
 it, crashing, and the reset a starting dispatcher makes.
 */
module BroadcastClaims {
  import opened Prelude
  import opened BroadcastRun

  /** Between its two statements a dispatcher has selected a record; after the claim it works on it. */
  datatype Phase = Idle | Selected(id: int) | Working(id: int)

  /** `claims` is the history of successful claims: who, and which record. */
  datatype System = System(statuses: map<int, Status>, phases: map<int, Phase>, claims: seq<(int, int)>)

  datatype Event =
    | Enqueue(id: int)
    | Select(worker: int, id: int)
    | Claim(worker: int)
    | End(worker: int, completed: bool)
    | Crash(worker: int)
    | Start(worker: int)

  function PhaseOf(s: System, worker: int): Phase {
    if worker in s.phases then s.phases[worker] else Idle
  }

  function Reset(statuses: map<int, Status>): map<int, Status> {
    map id | id in statuses :: if statuses[id] == Running then Pending else statuses[id]
  }

  /** One atomic statement of one dispatcher. Ending a broadcast checks nothing about its status. */
  function Step(s: System, e: Event): System {
    match e
    case Enqueue(id) =>
      if id in s.statuses then s else s.(statuses := s.statuses[id := Pending])
    case Select(worker, id) =>
      if PhaseOf(s, worker) == Idle && id in s.statuses && s.statuses[id] == Pending
      then s.(phases := s.phases[worker := Selected(id)])
      else s
    case Claim(worker) =>
      var phase := PhaseOf(s, worker);
      if !phase.Selected? then s
      else if phase.id in s.statuses && s.statuses[phase.id] == Pending then
        System(s.statuses[phase.id := Running], s.phases[worker := Working(phase.id)], s.claims + [(worker, phase.id)])
      else s.(phases := s.phases[worker := Idle])
    case End(worker, completed) =>
      var phase := PhaseOf(s, worker);
      if phase.Working?
      then s.(statuses := s.statuses[phase.id := if completed then Completed else Failed],
              phases := s.phases[worker := Idle])
      else s
    case Crash(worker) => s.(phases := s.phases - {worker})
    case Start(worker) => s.(statuses := Reset(s.statuses), phases := s.phases[worker := Idle])
  }

  predicate NobodyWorks(s: System) {
    forall w :: w in s.phases ==> !s.phases[w].Working?
  }

  /** A dispatcher starts only while no other one is at work, which is what the reset takes for granted. */
  predicate Allowed(s: System, e: Event) {
    e.Start? ==> NobodyWorks(s.(phases := s.phases - {e.worker}))
  }

  const EMPTY := System(map[], map[], [])

  function After(s: System, events: seq<Event>): System {
    if events == [] then s else Step(After(s, Init(events)), Last(events))
  }

  predicate AllAllowed(s: System, events: seq<Event>) {
    events != [] ==> AllAllowed(s, Init(events)) && Allowed(After(s, Init(events)), Last(events))
  }

  // ---------- Ownership ----------

  /** A record being worked on is running, and nobody else works on it. */
  ghost predicate Owned(s: System) {
    && (forall w :: w in s.phases && s.phases[w].Working? ==>
          s.phases[w].id in s.statuses && s.statuses[s.phases[w].id] == Running)
    && (forall v, w ::
          && v in s.phases && w in s.phases && s.phases[v].Working? && s.phases[w].Working?
          && s.phases[v].id == s.phases[w].id ==>
            v == w)
  }

  lemma {:induction false} ClaimKeepsOwned(s: System, worker: int)
    requires Owned(s)
    ensures Owned(Step(s, Claim(worker)))
  {
    var t := Step(s, Claim(worker));
    forall w | w in t.phases && t.phases[w].Working?
      ensures t.phases[w].id in t.statuses && t.statuses[t.phases[w].id] == Running
    {
      if w != worker {
        assert t.phases[w] == s.phases[w];
      }
    }
    forall v, w | v in t.phases && w in t.phases &&
      t.phases[v].Working? && t.phases[w].Working? && t.phases[v].id == t.phases[w].id
      ensures v == w
    {
      if v != worker {
        assert t.phases[v] == s.phases[v];
      }
      if w != worker {
        assert t.phases[w] == s.phases[w];
      }
    }
  }

  lemma {:induction false} StepKeepsOwned(s: System, e: Event)
    requires Owned(s) && Allowed(s, e)
    ensures Owned(Step(s, e))
  {
    var t := Step(s, e);
    match e {
      case Enqueue(_) =>
      case Select(_, _) =>
      case Claim(worker) => ClaimKeepsOwned(s, worker);
      case End(_, _) =>
      case Crash(_) =>
      case Start(worker) =>
        assert forall w :: w in t.phases ==> !t.phases[w].Working? by {
          assert forall w :: w in t.phases && w != worker ==>
            w in s.phases - {worker} && (s.phases - {worker})[w] == t.phases[w];
        }
    }
  }

  /** At every moment of every run, each record is worked on by at most one dispatcher. */
  lemma {:induction false} RunKeepsOwned(events: seq<Event>)
    requires AllAllowed(EMPTY, events)
    ensures Owned(After(EMPTY, events))
  {
    if events != [] {
      RunKeepsOwned(Init(events));
      StepKeepsOwned(After(EMPTY, Init(events)), Last(events));
    }
  }

  // ---------- Statuses ----------

  predicate Ended(status: Status) {
    status == Completed || status == Failed
  }

  /** What one step can do to a record's status. */
  lemma {:induction false} StatusMoves(s: System, e: Event, id: int)
    requires Owned(s) && id in s.statuses
    ensures id in Step(s, e).statuses
    ensures Ended(s.statuses[id]) ==> Step(s, e).statuses[id] == s.statuses[id]
    ensures s.statuses[id] == Running && Step(s, e).statuses[id] == Pending ==> e.Start?
    ensures s.statuses[id] == Pending && Step(s, e).statuses[id] != Pending ==>
              e.Claim? && Step(s, e).statuses[id] == Running && Step(s, e).claims == s.claims + [(e.worker, id)]
  {
    match e {
      case Enqueue(_) =>
      case Select(_, _) =>
      case Claim(_) =>
      case End(worker, _) =>
        if PhaseOf(s, worker).Working? {
          assert s.phases[worker].id in s.statuses && s.statuses[s.phases[worker].id] == Running;
        }
      case Crash(_) =>
      case Start(_) =>
    }
  }

  /** A completed or failed broadcast stays so, whatever the dispatchers do afterwards. */
  lemma {:induction false} EndedIsFinal(s: System, events: seq<Event>, id: int)
    requires Owned(s) && AllAllowed(s, events) && id in s.statuses && Ended(s.statuses[id])
    ensures id in After(s, events).statuses && After(s, events).statuses[id] == s.statuses[id]
    ensures Owned(After(s, events))
  {
    if events != [] {
      EndedIsFinal(s, Init(events), id);
      StatusMoves(After(s, Init(events)), Last(events), id);
      StepKeepsOwned(After(s, Init(events)), Last(events));
    }
  }

  // ---------- Claims ----------

  function ClaimsOf(claims: seq<(int, int)>, id: int): nat {
    if claims == [] then 0 else ClaimsOf(Init(claims), id) + if Last(claims).1 == id then 1 else 0
  }

  lemma {:induction false} ClaimsOfStep(claims: seq<(int, int)>, worker: int, claimed: int, id: int)
    ensures ClaimsOf(claims + [(worker, claimed)], id) == ClaimsOf(claims, id) + if claimed == id then 1 else 0
  {
    assert Init(claims + [(worker, claimed)]) == claims;
  }

  predicate IsPending(s: System, id: int) {
    id in s.statuses && s.statuses[id] == Pending
  }

  /** How often the record has been made pending: when it was enqueued, and by each reset that found it running. */
  function Offers(s: System, events: seq<Event>, id: int): nat {
    if events == [] then 0
    else
      var before, after := After(s, Init(events)), After(s, events);
      Offers(s, Init(events), id)
      + if IsPending(after, id) && !IsPending(before, id) then 1 else 0
  }

  lemma {:induction false} OfferStep(s: System, e: Event, id: int)
    requires Owned(s)
    ensures ClaimsOf(Step(s, e).claims, id) + (if IsPending(Step(s, e), id) then 1 else 0)
         == ClaimsOf(s.claims, id) + (if IsPending(s, id) || IsPending(Step(s, e), id) then 1 else 0)
  {
    var t := Step(s, e);
    if e.Claim? && t.claims != s.claims {
      ClaimsOfStep(s.claims, e.worker, PhaseOf(s, e.worker).id, id);
    } else if id in s.statuses {
      StatusMoves(s, e, id);
    }
  }

  /** Each time a record becomes pending it is claimed by at most one dispatcher: it is pending, or was claimed. */
  lemma {:induction false} EachOfferIsClaimedOnce(events: seq<Event>, id: int)
    requires AllAllowed(EMPTY, events)
    ensures var s := After(EMPTY, events);
            ClaimsOf(s.claims, id) + (if IsPending(s, id) then 1 else 0) == Offers(EMPTY, events, id)
  {
    if events != [] {
      EachOfferIsClaimedOnce(Init(events), id);
      RunKeepsOwned(Init(events));
      var before, e := After(EMPTY, Init(events)), Last(events);
      OfferStep(before, e, id);
    }
  }

  lemma {:induction false} NewIsPending(s: System, e: Event, id: int)
    requires Owned(s) && id !in s.statuses
    ensures id in Step(s, e).statuses ==> Step(s, e).statuses[id] == Pending
  {
    if e.End? && PhaseOf(s, e.worker).Working? {
      assert s.phases[e.worker].id in s.statuses;
    }
  }

  lemma {:induction false} OfferedOnce(events: seq<Event>, id: int)
    requires AllAllowed(EMPTY, events)
    requires forall i :: 0 <= i < |events| && events[i].Start? ==>
               var before := After(EMPTY, events[..i]);
               id in before.statuses ==> before.statuses[id] != Running
    ensures Offers(EMPTY, events, id) == if id in After(EMPTY, events).statuses then 1 else 0
  {
    if events != [] {
      var front := Init(events);
      forall i | 0 <= i < |front| && front[i].Start?
        ensures var before := After(EMPTY, front[..i]); id in before.statuses ==> before.statuses[id] != Running
      {
        assert front[..i] == events[..i] && events[i] == front[i];
      }
      OfferedOnce(front, id);
      RunKeepsOwned(front);
      var before, e := After(EMPTY, front), Last(events);
      assert events[..|events| - 1] == front;
      assert e == events[|events| - 1];
      if id in before.statuses {
        StatusMoves(before, e, id);
      } else {
        NewIsPending(before, e, id);
      }
    }
  }

  /** A record that no reset found running is claimed at most once. */
  lemma {:induction false} ClaimedOnceWithoutReset(events: seq<Event>, id: int)
    requires AllAllowed(EMPTY, events)
    requires forall i :: 0 <= i < |events| && events[i].Start? ==>
               var before := After(EMPTY, events[..i]);
               id in before.statuses ==> before.statuses[id] != Running
    ensures ClaimsOf(After(EMPTY, events).claims, id) <= 1
  {
    EachOfferIsClaimedOnce(events, id);
    OfferedOnce(events, id);
  }

  // ---------- Resets ----------

  /** A start keeps the ownership of running records exactly when no other dispatcher is at work. */
  lemma {:induction false} ResetIsSafeIff(s: System, worker: int)
    requires Owned(s)
    ensures Owned(Step(s, Start(worker))) <==> Allowed(s, Start(worker))
  {
    var t := Step(s, Start(worker));
    var others := s.phases - {worker};
    if Allowed(s, Start(worker)) {
      StepKeepsOwned(s, Start(worker));
    } else {
      var w :| w in others && others[w].Working?;
      assert t.phases[w] == s.phases[w];
      assert s.statuses[s.phases[w].id] == Running;
      assert t.statuses[t.phases[w].id] == Pending;
    }
  }

  lemma {:induction false} AfterThree(s: System, a: Event, b: Event, c: Event)
    ensures After(s, [a, b, c]) == Step(Step(Step(s, a), b), c)
  {
    hide Step;
    assert Init([a, b, c]) == [a, b];
    assert Init([a, b]) == [a];
    assert Init([a]) == [];
    assert After(s, [a]) == Step(s, a);
    assert After(s, [a, b]) == Step(Step(s, a), b);
  }

  /** Otherwise a broadcast still being delivered can be claimed a second time and be delivered twice. */
  lemma {:induction false} ResetBesideWorkerClaimsTwice(s: System, worker: int, other: int)
    requires Owned(s) && other in s.phases && s.phases[other].Working? && worker != other
    ensures var id := s.phases[other].id;
            var t := After(s, [Start(worker), Select(worker, id), Claim(worker)]);
            && PhaseOf(t, worker) == Working(id) && PhaseOf(t, other) == Working(id)
            && t.claims == s.claims + [(worker, id)]
  {
    var id := s.phases[other].id;
    var s1 := Step(s, Start(worker));
    assert s1.statuses[id] == Pending;
    var s2 := Step(s1, Select(worker, id));
    assert s2.phases[worker] == Selected(id);
    AfterThree(s, Start(worker), Select(worker, id), Claim(worker));
  }
}
