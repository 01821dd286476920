/**
 Whom a broadcast reaches and with what: the messages handed over, the rows stored for them, how a run ends, and what
 a request asks for.
 */
module BroadcastEffects {
  import opened Prelude
  import opened GoStrings
  import opened BroadcastTargets
  import opened BroadcastRun

  // ---------- Whom a specification means ----------

  /** Deleted users only if the filter asks for them; every other filter is absent or fits. */
  predicate FitsFilters(f: Filters, u: User) {
    && f.deleted in (if u.deleted then [Some(true)] else [None, Some(false)])
    && f.restricted in [None, Some(u.restricted)]
    && f.isBot in [None, Some(u.isBot)]
    && TrimSpace(f.countryCode) in ["", u.countryCode]
  }

  lemma {:induction false} MeetsIff(value: bool, filter: Option<bool>)
    ensures Meets(value, filter) <==> filter in [None, Some(value)]
  {
  }

  lemma {:induction false} TargetsAre(spec: Spec, u: User)
    ensures spec.kind == "all" ==> (Targets(spec, u) <==> !u.deleted)
    ensures spec.kind == "selected" ==> (Targets(spec, u) <==> u.id in spec.ids)
    ensures spec.kind == "filtered" ==> (Targets(spec, u) <==> FitsFilters(spec.filters, u))
    ensures Targets(spec, u) ==> spec.kind in ["all", "selected", "filtered"]
    ensures Supported(spec) <==> spec.kind in ["all", "filtered"] || (spec.kind == "selected" && spec.ids != [])
  {
    KindsDiffer();
    MeetsIff(u.restricted, spec.filters.restricted);
    MeetsIff(u.isBot, spec.filters.isBot);
    MeetsIff(u.deleted, spec.filters.deleted);
    hide TrimSpace;
  }

  /** Whom a request means, by its target type. */
  ghost predicate RequestMeans(req: Request, lookup: string -> Option<User>, u: User) {
    var kind := TrimSpace(req.targetType);
    || (kind == "all" && !u.deleted)
    || (kind == "selected" && exists t :: t in req.tokens && lookup(t).Some? && lookup(t).value.id == u.id)
    || (kind == "filtered" && FitsFilters(req.filters, u))
  }

  lemma {:induction false} NamedByToken(tokens: seq<string>, lookup: string -> Option<User>, id: int)
    ensures Named(tokens, lookup, id)
       <==> exists t :: t in tokens && lookup(t).Some? && lookup(t).value.id == id
  {
    if t :| t in tokens && lookup(t).Some? && lookup(t).value.id == id {
      var i :| 0 <= i < |tokens| && tokens[i] == t;
    }
  }

  /** A broadcast goes to exactly the stored users its request means, whatever its target type. */
  lemma {:induction false} RequestReaches(users: seq<User>, req: Request, lookup: string -> Option<User>, u: User)
    requires ById(users) && SpecOf(req, lookup).Ok?
    ensures u in Recipients(users, SpecOf(req, lookup).value) <==> u in users && RequestMeans(req, lookup, u)
  {
    KindsDiffer();
    var spec := SpecOf(req, lookup).value;
    RecipientsAreTargets(users, spec);
    TargetsAre(spec, u);
    if TrimSpace(req.targetType) == "selected" {
      SelectedRecipientsAreNamed(users, req, lookup, u);
      NamedByToken(req.tokens, lookup, u.id);
    }
    hide TrimSpace, Resolved, Recipients, Targets, FitsFilters;
  }

  /** A request becomes a broadcast unless its target type is unknown or it selects nobody who can be found. */
  lemma {:induction false} RequestIsRefusedIff(req: Request, lookup: string -> Option<User>)
    ensures SpecOf(req, lookup) == Err(BadTargetType)
       <==> TrimSpace(req.targetType) !in ["all", "selected", "filtered"]
    ensures SpecOf(req, lookup) == Err(NoValidUsers)
       <==> TrimSpace(req.targetType) == "selected" && forall t :: t in req.tokens ==> lookup(t) == None
  {
    KindsDiffer();
    ResolvedNamesEachOnce(req.tokens, lookup);
    var found := Resolved(req.tokens, lookup).0;
    hide TrimSpace, Resolved;
    if found != [] {
      assert HasId(found, found[0].id);
      var i :| 0 <= i < |req.tokens| && lookup(req.tokens[i]).Some? && lookup(req.tokens[i]).value.id == found[0].id;
      assert req.tokens[i] in req.tokens;
    }
    if t :| t in req.tokens && lookup(t).Some? {
      var i :| 0 <= i < |req.tokens| && req.tokens[i] == t;
      assert Named(req.tokens, lookup, lookup(t).value.id);
    }
  }

  // ---------- Messages ----------

  /** The i-th message of a run goes to the i-th user it visits, and carries the text of the broadcast. */
  lemma {:induction false} MessageGoesTo(users: seq<User>, r: Record, env: Answers, i: nat)
    requires i < |Visited(users, r, env)|
    ensures var messages := Messages(Visited(users, r, env), r.messageText);
            && |messages| == |Visited(users, r, env)|
            && messages[i].to == Visited(users, r, env)[i].id && messages[i].text == r.messageText
  {
    hide Visited;
  }

  /** Whatever is listed or not, only users the specification means are visited, in id order. */
  lemma {:induction false} VisitedAreTargets(users: seq<User>, r: Record, env: Answers)
    requires ById(users)
    ensures ById(Visited(users, r, env))
    ensures forall u :: u in Visited(users, r, env) ==> u in users && Targets(r.spec.value, u)
    ensures Visited(users, r, env) != [] ==> r.spec.Some?
  {
    hide Targets, Recipients, Reach, Supported;
    if Targeted(users, r) != [] {
      RecipientsAreTargets(users, r.spec.value);
      var all := Targeted(users, r);
      var n := Reach(|all|, 0, env).0;
      assert all[..n] <= all;
      forall u | u in all[..n] ensures u in all {
      }
    }
  }

  /** The user with this id is one the specification means. */
  ghost predicate Meant(users: seq<User>, spec: Spec, id: int) {
    exists u :: u in users && u.id == id && Targets(spec, u)
  }

  /**
   When everything is listed, the users messages go to are exactly those the specification means, each of them gets
   one message, and every message carries the text of the broadcast.
   */
  lemma {:induction false} EveryTargetGetsOneMessage(users: seq<User>, r: Record, env: Answers)
    requires ById(users) && r.spec.Some? && Supported(r.spec.value) && AllListed(users, env)
    ensures var messages := Messages(Visited(users, r, env), r.messageText);
            && (forall m :: m in messages ==> Meant(users, r.spec.value, m.to) && m.text == r.messageText)
            && (forall id :: Meant(users, r.spec.value, id) ==>
                  exists i :: 0 <= i < |messages| && messages[i].to == id)
            && (forall i, j :: 0 <= i < j < |messages| ==> messages[i].to != messages[j].to)
  {
    EverybodyIsVisited(users, r, env);
    RecipientsAreTargets(users, r.spec.value);
    hide Targets, Recipients, Supported, AllListed, Visited;
    var visited := Visited(users, r, env);
    var messages := Messages(visited, r.messageText);
    forall m | m in messages ensures Meant(users, r.spec.value, m.to) && m.text == r.messageText {
      var i :| 0 <= i < |messages| && messages[i] == m;
      assert visited[i] in visited;
    }
    forall id | Meant(users, r.spec.value, id) ensures exists i :: 0 <= i < |messages| && messages[i].to == id {
      var u :| u in users && u.id == id && Targets(r.spec.value, u);
      var i :| 0 <= i < |visited| && visited[i] == u;
      assert messages[i].to == id;
    }
  }

  // ---------- Delivery rows ----------

  /** The row of a user: the name, and how the message service answered. */
  predicate RowShows(d: Delivery, u: User, answer: SendOutcome) {
    && d.displayName == u.displayName
    && (d.sent <==> answer == Accepted)
    && d.errorMessage == (if answer.Refused? then TrimSpace(answer.error) else "")
  }

  lemma {:induction false} FrontIsBefore(visited: seq<User>, u: User)
    requires ById(visited) && visited != [] && u in visited && u != Last(visited)
    ensures ById(Init(visited)) && u in Init(visited) && u.id < Last(visited).id
  {
    var i :| 0 <= i < |visited| && visited[i] == u;
    assert Init(visited)[i] == u;
  }

  /** A visited user's row shows what happened to the message, if it is stored. */
  lemma {:induction false} RowIs(table: map<(int, int), Delivery>, id: int, visited: seq<User>, env: Answers, u: User)
    requires ById(visited) && u in visited && env.stores(Row(u.id))
    ensures var after := Delivered(table, id, visited, env);
            (id, u.id) in after && RowShows(after[(id, u.id)], u, env.send(u.id))
  {
    hide TrimSpace, ById;
    if u != Last(visited) {
      FrontIsBefore(visited, u);
      RowIs(table, id, Init(visited), env, u);
    }
  }

  /** The rows of visited users are those; no other row changes. */
  lemma {:induction false} RowsShow(table: map<(int, int), Delivery>, id: int, visited: seq<User>, env: Answers,
        k: (int, int))
    requires ById(visited)
    ensures var after := Delivered(table, id, visited, env);
            if k.0 == id && HasId(visited, k.1) && env.stores(Row(k.1))
            then k in after && exists u :: u in visited && u.id == k.1 && RowShows(after[k], u, env.send(u.id))
            else (k in after <==> k in table) && (k in table ==> after[k] == table[k])
  {
    DeliveredRows(table, id, visited, env, k);
    hide Delivered;
    if k.0 == id && HasId(visited, k.1) && env.stores(Row(k.1)) {
      var i :| 0 <= i < |visited| && visited[i].id == k.1;
      RowIs(table, id, visited, env, visited[i]);
      assert k == (id, visited[i].id);
    }
  }

  /**
   A row that says sent was there before the run, or it belongs to a message of this run that was accepted: one to
   that user, with the text of the broadcast.
   */
  lemma {:induction false} SentRowHasMessage(users: seq<User>, r: Record, table: map<(int, int), Delivery>,
        env: Answers, id: int)
    requires ById(users)
    requires var after := Delivered(table, r.id, Visited(users, r, env), env);
             (r.id, id) in after && after[(r.id, id)].sent
             && !((r.id, id) in table && table[(r.id, id)] == after[(r.id, id)])
    ensures env.send(id) == Accepted
    ensures Message(id, r.messageText) in Messages(Visited(users, r, env), r.messageText)
  {
    VisitedAreTargets(users, r, env);
    var visited := Visited(users, r, env);
    hide Targets, Visited, Delivered;
    RowsShow(table, r.id, visited, env, (r.id, id));
    var i :| 0 <= i < |visited| && visited[i].id == id;
    assert visited[i] in visited;
    assert Messages(visited, r.messageText)[i] == Message(id, r.messageText);
  }

  // ---------- Claims and pages ----------

  /** Claiming a record makes it running and clears its error; nothing else changes. */
  lemma {:induction false} ClaimedShows(records: seq<Record>, i: nat, j: nat)
    requires i < |records| && j < |records|
    ensures var after := Claimed(records, i)[j];
            && after == records[j].(status := after.status, errorMessage := after.errorMessage)
            && after.status == (if j == i then Running else records[j].status)
            && after.errorMessage == (if j == i then "" else records[j].errorMessage)
  {
  }

  /** Paging stops at the first multiple of 200 whose listing fails, or behind the last recipient. */
  lemma {:induction false} PagingStopsAt(n: nat, offset: nat, env: Answers)
    requires offset <= n && (offset < n ==> offset % 200 == 0)
    ensures var (reached, listed) := Reach(n, offset, env);
            && (listed ==> reached == n) && (listed <==> env.lists(reached))
            && (reached < n ==> reached % 200 == 0)
            && (forall o: nat :: offset <= o < reached && o % 200 == 0 ==> env.lists(o))
    decreases n - offset
  {
    if env.lists(offset) && offset < n {
      var next := NextOffset(n, offset);
      PagingStopsAt(n, next, env);
      forall o: nat | offset <= o < next && o % 200 == 0 ensures o == offset {
      }
    }
  }

  /** The counts a run leaves before its end: those of the last page whose progress was stored, which ends at `n`. */
  lemma {:induction false} NotedShows(r: Record, visited: seq<User>, env: Answers) returns (n: nat)
    ensures n <= |visited|
    ensures var noted := Noted(r, visited, env);
            if n == 0 then noted == r
            else noted == r.(successCount := Successes(visited[..n], env),
                             failureCount := n - Successes(visited[..n], env))
    ensures n > 0 ==> env.stores(Progress((n - 1) / 200 * 200))
    ensures forall o: nat :: n <= o < |visited| && o % 200 == 0 ==> !env.stores(Progress(o))
    decreases |visited|
  {
    hide Successes;
    if visited == [] {
      n := 0;
    } else {
      var start := PageStart(|visited|);
      if env.stores(Progress(start)) {
        n := |visited|;
        assert visited[..n] == visited;
      } else {
        n := NotedShows(r, visited[..start], env);
        assert visited[..start][..n] == visited[..n];
        forall o: nat | start <= o < |visited| && o % 200 == 0 ensures o == start {
        }
      }
    }
  }

  // ---------- Ends ----------

  predicate FailedWith(end: Record, error: string) {
    end.status == Failed && end.errorMessage == error
  }

  /** How a run ends, by the first thing that goes wrong: its status, its error, and the counts of what was sent. */
  lemma {:induction false} RunEndsAs(users: seq<User>, r: Record, env: Answers)
    requires ById(users) && env.stores(End)
    ensures var end := Outcome(users, r, env);
            var visited := Visited(users, r, env);
            var accepted := Successes(visited, env);
            && end.id == r.id && end.messageText == r.messageText && end.spec == r.spec && end.createdAt == r.createdAt
            && end.successCount == accepted && end.failureCount == |visited| - accepted
            && (end.status == Completed <==> end.errorMessage == "" && visited != [])
            && end.status in [Completed, Failed]
            && (r.spec == None ==> FailedWith(end, "invalid target spec"))
            && (r.spec.Some? && Supported(r.spec.value) ==>
                  var all := Recipients(users, r.spec.value);
                  var listed := Reach(|all|, 0, env).1;
                  && (!env.counts ==> FailedWith(end, "counting recipients failed"))
                  && (env.counts && all == [] ==> FailedWith(end, "no recipients found"))
                  && (env.counts && all != [] && !listed ==> FailedWith(end, "listing recipients failed"))
                  && (env.counts && all != [] && listed && accepted == 0 ==> FailedWith(end, "all deliveries failed"))
                  && (env.counts && all != [] && listed && accepted > 0 ==> end.status == Completed))
            && (r.spec.Some? && r.spec.value.kind == "selected" && r.spec.value.ids == [] ==>
                  FailedWith(end, "no selected recipients"))
            && (r.spec.Some? && r.spec.value.kind !in ["all", "selected", "filtered"] ==>
                  FailedWith(end, TrimSpace("unsupported target type: " + r.spec.value.kind)))
  {
    KindsDiffer();
    hide Recipients, Reach, Successes, TrimSpace;
  }
}
