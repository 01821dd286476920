/** Whom a broadcast goes to: target specifications, the conditions they become, and selected users. */
module BroadcastTargets {
  import opened Prelude
  import opened GoStrings

  datatype User = User(id: int, displayName: string, countryCode: string, restricted: bool, deleted: bool, isBot: bool)

  datatype Filters = Filters(restricted: Option<bool>, deleted: Option<bool>, isBot: Option<bool>, countryCode: string)

  datatype Spec = Spec(kind: string, ids: seq<int>, filters: Filters)

  const ALL := "all"
  const SELECTED := "selected"
  const FILTERED := "filtered"
  const NO_FILTERS := Filters(None, None, None, "")

  datatype TargetError = NoSelectedRecipients | UnsupportedType

  /** One conjunct of the WHERE clause. */
  datatype Condition =
    | IdIn(ids: seq<int>)
    | RestrictedIs(value: bool)
    | DeletedIs(value: bool)
    | IsBotIs(value: bool)
    | CountryIs(code: string)

  predicate Satisfies(u: User, c: Condition) {
    match c
    case IdIn(ids) => u.id in ids
    case RestrictedIs(value) => u.restricted == value
    case DeletedIs(value) => u.deleted == value
    case IsBotIs(value) => u.isBot == value
    case CountryIs(code) => u.countryCode == code
  }

  predicate SatisfiesAll(u: User, where: seq<Condition>) {
    forall i :: 0 <= i < |where| ==> Satisfies(u, where[i])
  }

  predicate Supported(spec: Spec) {
    spec.kind == ALL || (spec.kind == SELECTED && spec.ids != []) || spec.kind == FILTERED
  }

  predicate Meets(value: bool, filter: Option<bool>) {
    filter.Some? ==> value == filter.value
  }

  /** Whom a specification means: deleted users only when they are selected or asked for. */
  predicate Targets(spec: Spec, u: User) {
    if spec.kind == ALL then !u.deleted
    else if spec.kind == SELECTED then u.id in spec.ids
    else
      && spec.kind == FILTERED
      && (if spec.filters.deleted.Some? then u.deleted == spec.filters.deleted.value else !u.deleted)
      && Meets(u.restricted, spec.filters.restricted)
      && Meets(u.isBot, spec.filters.isBot)
      && (TrimSpace(spec.filters.countryCode) != "" ==> u.countryCode == TrimSpace(spec.filters.countryCode))
  }

  lemma {:induction false} KindsDiffer()
    ensures ALL != SELECTED && ALL != FILTERED && SELECTED != FILTERED
  {
    assert |ALL| != |SELECTED| && |ALL| != |FILTERED|;
    assert SELECTED[0] != FILTERED[0];
  }

  lemma {:induction false} AndThen(where: seq<Condition>, c: Condition)
    ensures forall u: User :: SatisfiesAll(u, where + [c]) <==> SatisfiesAll(u, where) && Satisfies(u, c)
  {
    forall u: User
      ensures SatisfiesAll(u, where + [c]) <==> SatisfiesAll(u, where) && Satisfies(u, c)
    {
      if SatisfiesAll(u, where + [c]) {
        assert (where + [c])[|where|] == c;
        forall i | 0 <= i < |where| ensures Satisfies(u, where[i]) {
          assert (where + [c])[i] == where[i];
        }
      }
    }
  }

  method FilterConditions(f: Filters, start: seq<Condition>) returns (where: seq<Condition>)
    ensures forall u: User :: SatisfiesAll(u, where) <==>
              && SatisfiesAll(u, start)
              && Meets(u.restricted, f.restricted) && Meets(u.deleted, f.deleted) && Meets(u.isBot, f.isBot)
              && (TrimSpace(f.countryCode) != "" ==> u.countryCode == TrimSpace(f.countryCode))
  {
    hide SatisfiesAll, TrimSpace;
    where := start;
    if f.restricted.Some? {
      AndThen(where, RestrictedIs(f.restricted.value));
      where := where + [RestrictedIs(f.restricted.value)];
    }
    if f.deleted.Some? {
      AndThen(where, DeletedIs(f.deleted.value));
      where := where + [DeletedIs(f.deleted.value)];
    }
    if f.isBot.Some? {
      AndThen(where, IsBotIs(f.isBot.value));
      where := where + [IsBotIs(f.isBot.value)];
    }
    var code := TrimSpace(f.countryCode);
    if code != "" {
      AndThen(where, CountryIs(code));
      where := where + [CountryIs(code)];
    }
  }

  /** The conditions of the recipient query hold of exactly the users the specification means. */
  method BuildRecipientQuery(spec: Spec) returns (r: Result<seq<Condition>, TargetError>)
    ensures r.Ok? <==> Supported(spec)
    ensures r.Ok? ==> forall u: User :: SatisfiesAll(u, r.value) <==> Targets(spec, u)
    ensures r.Err? ==> r.error == if spec.kind == SELECTED then NoSelectedRecipients else UnsupportedType
  {
    KindsDiffer();
    hide TrimSpace;
    var where: seq<Condition> := [];
    if spec.kind == ALL {
      AndThen(where, DeletedIs(false));
      where := where + [DeletedIs(false)];
    } else if spec.kind == SELECTED {
      if |spec.ids| == 0 {
        return Err(NoSelectedRecipients);
      }
      AndThen(where, IdIn(spec.ids));
      where := where + [IdIn(spec.ids)];
    } else if spec.kind == FILTERED {
      if spec.filters.deleted == None {
        AndThen(where, DeletedIs(false));
        where := where + [DeletedIs(false)];
      }
    } else {
      return Err(UnsupportedType);
    }
    if spec.kind == FILTERED {
      where := FilterConditions(spec.filters, where);
    }
    return Ok(where);
  }

  // ---------- Recipients ----------

  /** The user table in id order. */
  predicate ById(users: seq<User>) {
    forall i, j :: 0 <= i < j < |users| ==> users[i].id < users[j].id
  }

  function Recipients(users: seq<User>, spec: Spec): seq<User> {
    if users == [] then []
    else if Targets(spec, Last(users)) then Recipients(Init(users), spec) + [Last(users)]
    else Recipients(Init(users), spec)
  }

  /** The recipients are the users meant, each once, in id order. */
  lemma {:induction false} RecipientsAreTargets(users: seq<User>, spec: Spec)
    requires ById(users)
    ensures forall u :: u in Recipients(users, spec) <==> u in users && Targets(spec, u)
    ensures ById(Recipients(users, spec))
  {
    hide Targets;
    if users != [] {
      RecipientsAreTargets(Init(users), spec);
      assert users == Init(users) + [Last(users)];
      forall u | u in Init(users) ensures u.id < Last(users).id {
        var i :| 0 <= i < |Init(users)| && Init(users)[i] == u;
        assert users[i] == u;
      }
    }
  }

  // ---------- Selected users ----------

  predicate HasId(users: seq<User>, id: int) {
    exists i :: 0 <= i < |users| && users[i].id == id
  }

  /** What looking the identifiers up gives: the users found, each at its first mention, and the rest. */
  function Resolved(tokens: seq<string>, lookup: string -> Option<User>): (seq<User>, seq<string>) {
    if tokens == [] then ([], [])
    else
      var (found, unresolved) := Resolved(Init(tokens), lookup);
      match lookup(Last(tokens))
      case None => (found, unresolved + [Last(tokens)])
      case Some(u) => if HasId(found, u.id) then (found, unresolved) else (found + [u], unresolved)
  }

  lemma {:induction false} AppendId(users: seq<User>, u: User)
    ensures forall id :: HasId(users + [u], id) <==> HasId(users, id) || id == u.id
  {
    forall id ensures HasId(users + [u], id) <==> HasId(users, id) || id == u.id {
      if HasId(users, id) {
        var i :| 0 <= i < |users| && users[i].id == id;
        assert (users + [u])[i].id == id;
      }
      if id == u.id {
        assert (users + [u])[|users|].id == id;
      }
    }
  }

  method ResolveSelectedRecipients(tokens: seq<string>, lookup: string -> Option<User>)
    returns (recipients: seq<User>, unresolved: seq<string>)
    ensures (recipients, unresolved) == Resolved(tokens, lookup)
  {
    recipients, unresolved := [], [];
    var seen: set<int> := {};
    for i := 0 to |tokens|
      invariant (recipients, unresolved) == Resolved(tokens[..i], lookup)
      invariant forall id :: id in seen <==> HasId(recipients, id)
    {
      assert Init(tokens[..i + 1]) == tokens[..i];
      var found := lookup(tokens[i]);
      if found == None {
        unresolved := unresolved + [tokens[i]];
      } else if found.value.id !in seen {
        AppendId(recipients, found.value);
        seen := seen + {found.value.id};
        recipients := recipients + [found.value];
      }
    }
    assert tokens[..|tokens|] == tokens;
  }

  /** Some identifier names this user. */
  predicate Named(tokens: seq<string>, lookup: string -> Option<User>, id: int) {
    exists i :: 0 <= i < |tokens| && lookup(tokens[i]).Some? && lookup(tokens[i]).value.id == id
  }

  lemma {:induction false} NamedByMore(front: seq<string>, t: string, lookup: string -> Option<User>, id: int)
    ensures Named(front + [t], lookup, id)
       <==> Named(front, lookup, id) || (lookup(t).Some? && lookup(t).value.id == id)
  {
    if Named(front, lookup, id) {
      var i :| 0 <= i < |front| && lookup(front[i]).Some? && lookup(front[i]).value.id == id;
      assert (front + [t])[i] == front[i];
    }
    assert (front + [t])[|front|] == t;
  }

  predicate AllDifferent(users: seq<User>) {
    forall i, j :: 0 <= i < j < |users| ==> users[i].id != users[j].id
  }

  /** Each user some identifier names is resolved once, and the identifiers naming nobody are kept. */
  lemma {:induction false} ResolvedNamesEachOnce(tokens: seq<string>, lookup: string -> Option<User>)
    ensures AllDifferent(Resolved(tokens, lookup).0)
    ensures forall id :: HasId(Resolved(tokens, lookup).0, id) <==> Named(tokens, lookup, id)
    ensures forall t :: t in Resolved(tokens, lookup).1 <==> t in tokens && lookup(t) == None
  {
    if tokens != [] {
      ResolvedNamesEachOnce(Init(tokens), lookup);
      assert tokens == Init(tokens) + [Last(tokens)];
      var before := Resolved(Init(tokens), lookup).0;
      var last := lookup(Last(tokens));
      forall id
        ensures HasId(Resolved(tokens, lookup).0, id) <==> Named(tokens, lookup, id)
      {
        NamedByMore(Init(tokens), Last(tokens), lookup, id);
        if last.Some? {
          AppendId(before, last.value);
        }
      }
    }
  }

  // ---------- Requests ----------

  datatype Request = Request(targetType: string, tokens: seq<string>, filters: Filters)

  datatype RequestError = NoValidUsers | BadTargetType

  function IdsOf(users: seq<User>): (ids: seq<int>)
    ensures |ids| == |users|
  {
    seq(|users|, i requires 0 <= i < |users| => users[i].id)
  }

  function SpecOf(req: Request, lookup: string -> Option<User>): Result<Spec, RequestError> {
    var kind := TrimSpace(req.targetType);
    if kind == ALL then Ok(Spec(ALL, [], NO_FILTERS))
    else if kind == SELECTED then
      var found := Resolved(req.tokens, lookup).0;
      if found == [] then Err(NoValidUsers) else Ok(Spec(SELECTED, IdsOf(found), NO_FILTERS))
    else if kind == FILTERED then Ok(Spec(FILTERED, [], req.filters))
    else Err(BadTargetType)
  }

  method BuildTargetSpec(req: Request, lookup: string -> Option<User>)
    returns (r: Result<Spec, RequestError>, unresolved: seq<string>)
    ensures r == SpecOf(req, lookup)
    ensures unresolved == if TrimSpace(req.targetType) == SELECTED then Resolved(req.tokens, lookup).1 else []
  {
    KindsDiffer();
    hide TrimSpace, Resolved;
    var kind := TrimSpace(req.targetType);
    if kind == ALL {
      return Ok(Spec(ALL, [], NO_FILTERS)), [];
    } else if kind == SELECTED {
      var recipients, rest := ResolveSelectedRecipients(req.tokens, lookup);
      if |recipients| == 0 {
        return Err(NoValidUsers), rest;
      }
      var ids: seq<int> := [];
      for i := 0 to |recipients|
        invariant ids == IdsOf(recipients[..i])
      {
        ids := ids + [recipients[i].id];
      }
      assert recipients[..|recipients|] == recipients;
      return Ok(Spec(SELECTED, ids, NO_FILTERS)), rest;
    } else if kind == FILTERED {
      return Ok(Spec(FILTERED, [], req.filters)), [];
    } else {
      return Err(BadTargetType), [];
    }
  }

  /** Every specification a request becomes is one the recipient query supports. */
  lemma {:induction false} RequestsAreSupported(req: Request, lookup: string -> Option<User>)
    ensures SpecOf(req, lookup).Ok? ==> Supported(SpecOf(req, lookup).value)
  {
    hide TrimSpace, Resolved;
  }

  lemma {:induction false} IdsAreIds(users: seq<User>, id: int)
    ensures id in IdsOf(users) <==> HasId(users, id)
  {
    if HasId(users, id) {
      var i :| 0 <= i < |users| && users[i].id == id;
      assert IdsOf(users)[i] == id;
    }
  }

  /** A selected broadcast goes to exactly the users some identifier names, deleted ones included. */
  lemma {:induction false} SelectedRecipientsAreNamed(users: seq<User>, req: Request, lookup: string -> Option<User>,
        u: User)
    requires ById(users) && TrimSpace(req.targetType) == SELECTED && SpecOf(req, lookup).Ok?
    ensures u in Recipients(users, SpecOf(req, lookup).value)
       <==> u in users && Named(req.tokens, lookup, u.id)
  {
    KindsDiffer();
    var found := Resolved(req.tokens, lookup).0;
    ResolvedNamesEachOnce(req.tokens, lookup);
    hide TrimSpace, Resolved;
    var spec := SpecOf(req, lookup).value;
    RecipientsAreTargets(users, spec);
    assert Targets(spec, u) <==> u.id in IdsOf(found);
    IdsAreIds(found, u.id);
  }
}
