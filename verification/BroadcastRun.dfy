/** Delivering one broadcast: paging through its recipients, counting, and recording every delivery. */
module BroadcastRun {
  import opened Prelude
  import opened BroadcastTargets
  import opened GoStrings

  datatype Status = Pending | Running | Completed | Failed

  /** `spec` is None when the stored specification cannot be decoded. */
  datatype Record = Record(
    id: int, messageText: string, spec: Option<Spec>, status: Status,
    successCount: int, failureCount: int, errorMessage: string, createdAt: int)

  datatype Delivery = Delivery(displayName: string, sent: bool, errorMessage: string)

  datatype SendOutcome = Accepted | Refused(error: string)

  datatype Message = Message(to: int, text: string)

  /** What a run writes to the database: a delivery row, the counts after the page at an offset, how it ended. */
  datatype Write = Row(userId: int) | Progress(offset: nat) | End

  /**
   What the message service answers for each user, whether the recipients can be counted, whether the listing at an
   offset succeeds, and which writes do. Nobody looks whether they do.
   */
  datatype Answers = Answers(
    send: int -> SendOutcome, counts: bool, lists: nat -> bool, stores: Write -> bool)

  const BATCH_SIZE := 200

  const INVALID_SPEC := "invalid target spec"
  const NO_RECIPIENTS := "no recipients found"
  const COUNTING_FAILED := "counting recipients failed"
  const LISTING_FAILED := "listing recipients failed"
  const ALL_FAILED := "all deliveries failed"

  // ---------- What a run does ----------

  function DeliveryTo(u: User, outcome: SendOutcome): Delivery {
    match outcome
    case Accepted => Delivery(u.displayName, true, "")
    case Refused(error) => Delivery(u.displayName, false, TrimSpace(error))
  }

  function Delivered(table: map<(int, int), Delivery>, id: int, visited: seq<User>, env: Answers)
    : map<(int, int), Delivery>
  {
    if visited == [] then table
    else
      var u := Last(visited);
      var before := Delivered(table, id, Init(visited), env);
      if env.stores(Row(u.id)) then before[(id, u.id) := DeliveryTo(u, env.send(u.id))] else before
  }

  function Successes(visited: seq<User>, env: Answers): (n: nat)
    ensures n <= |visited|
  {
    if visited == [] then 0
    else Successes(Init(visited), env) + if env.send(Last(visited).id) == Accepted then 1 else 0
  }

  function Messages(visited: seq<User>, text: string): seq<Message> {
    seq(|visited|, i requires 0 <= i < |visited| => Message(visited[i].id, text))
  }

  /** Where the page after the one at `offset` starts. */
  function NextOffset(n: nat, offset: nat): (next: nat)
    requires offset <= n
    ensures offset <= next <= n && (next == offset <==> offset == n)
  {
    if offset + BATCH_SIZE < n then offset + BATCH_SIZE else n
  }

  /** How far paging gets through `n` recipients, and whether every listing on the way succeeded. */
  function Reach(n: nat, offset: nat, env: Answers): (r: (nat, bool))
    requires offset <= n
    ensures offset <= r.0 <= n
    ensures r.1 ==> r.0 == n
    decreases n - offset
  {
    if !env.lists(offset) then (offset, false)
    else if offset == n then (n, true)
    else Reach(n, NextOffset(n, offset), env)
  }

  function Targeted(users: seq<User>, r: Record): seq<User> {
    if r.spec.Some? && Supported(r.spec.value) then Recipients(users, r.spec.value) else []
  }

  function Visited(users: seq<User>, r: Record, env: Answers): seq<User> {
    var targeted := Targeted(users, r);
    if targeted == [] || !env.counts then [] else targeted[..Reach(|targeted|, 0, env).0]
  }

  function QueryError(spec: Spec): string {
    if spec.kind == SELECTED then "no selected recipients" else TrimSpace("unsupported target type: " + spec.kind)
  }

  function Ended(r: Record, status: Status, successes: nat, failures: nat, error: string): Record {
    r.(status := status, successCount := successes, failureCount := failures, errorMessage := error)
  }

  /** How a run ends: what its last write says, if it is stored. */
  function Verdict(users: seq<User>, r: Record, env: Answers): Record {
    var visited := Visited(users, r, env);
    var successes := Successes(visited, env);
    var failures := |visited| - successes;
    if r.spec == None then Ended(r, Failed, 0, 0, INVALID_SPEC)
    else if !Supported(r.spec.value) then Ended(r, Failed, 0, 0, QueryError(r.spec.value))
    else if !env.counts then Ended(r, Failed, 0, 0, COUNTING_FAILED)
    else if Targeted(users, r) == [] then Ended(r, Failed, 0, 0, NO_RECIPIENTS)
    else if !Reach(|Targeted(users, r)|, 0, env).1 then Ended(r, Failed, successes, failures, LISTING_FAILED)
    else if successes == 0 then Ended(r, Failed, 0, failures, ALL_FAILED)
    else Ended(r, Completed, successes, failures, "")
  }

  /** Where the last page before `offset` starts. */
  function PageStart(offset: nat): (start: nat)
    requires offset > 0
    ensures start < offset
  {
    (offset - 1) / BATCH_SIZE * BATCH_SIZE
  }

  /** The record with the counts of the last page whose progress was stored. */
  function Noted(r: Record, visited: seq<User>, env: Answers): Record
    decreases |visited|
  {
    if visited == [] then r
    else
      var start := PageStart(|visited|);
      if env.stores(Progress(start)) then
        r.(successCount := Successes(visited, env), failureCount := |visited| - Successes(visited, env))
      else Noted(r, visited[..start], env)
  }

  /** The record a run leaves. */
  function Outcome(users: seq<User>, r: Record, env: Answers): Record {
    if env.stores(End) then Verdict(users, r, env) else Noted(r, Visited(users, r, env), env)
  }

  /** The oldest pending record among the first `n`. */
  function Oldest(records: seq<Record>, n: nat): (r: Option<nat>)
    requires n <= |records|
    ensures r.Some? ==> r.value < n && records[r.value].status == Pending
    ensures r.Some? ==> forall j :: 0 <= j < n && records[j].status == Pending ==>
              records[r.value].createdAt < records[j].createdAt
              || (records[r.value].createdAt == records[j].createdAt && r.value <= j)
    ensures r == None ==> forall j :: 0 <= j < n ==> records[j].status != Pending
  {
    if n == 0 then None
    else
      var best := Oldest(records, n - 1);
      if records[n - 1].status != Pending then best
      else if best == None || records[n - 1].createdAt < records[best.value].createdAt then Some(n - 1)
      else best
  }

  function Claimed(records: seq<Record>, i: nat): (r: seq<Record>)
    requires i < |records|
    ensures |r| == |records|
  {
    records[i := records[i].(status := Running, errorMessage := "")]
  }

  // ---------- Pages ----------

  /** Up to `size` elements from `offset` on. */
  function Slice<T>(s: seq<T>, offset: nat, size: nat): (r: seq<T>)
    ensures |r| <= size
  {
    if offset >= |s| then [] else if offset + size < |s| then s[offset..offset + size] else s[offset..]
  }

  lemma {:induction false} SliceOfMore<T>(s: seq<T>, x: T, offset: nat, size: nat)
    ensures Slice(s + [x], offset, size)
         == if |s| < offset || |Slice(s, offset, size)| == size then Slice(s, offset, size)
            else Slice(s, offset, size) + [x]
  {
  }

  // ---------- The dispatcher ----------

  /** Noting progress changes the two counts only. */
  lemma {:induction false} NotedCounts(r: Record, visited: seq<User>, env: Answers)
    ensures var after := Noted(r, visited, env);
            after == r.(successCount := after.successCount, failureCount := after.failureCount)
    decreases |visited|
  {
    hide PageStart;
    if visited != [] {
      NotedCounts(r, visited[..PageStart(|visited|)], env);
    }
  }

  lemma {:induction false} NotedIs(r: Record, visited: seq<User>, env: Answers)
    ensures Noted(r, visited, env).id == r.id && Noted(r, visited, env).messageText == r.messageText
  {
    NotedCounts(r, visited, env);
  }

  /** Where a page may start. */
  predicate IsPageStart(offset: nat) {
    offset % BATCH_SIZE == 0
  }

  lemma {:induction false} PageStartIs(n: nat, offset: nat)
    requires offset < n && IsPageStart(offset)
    ensures PageStart(NextOffset(n, offset)) == offset
    ensures NextOffset(n, offset) < n ==> IsPageStart(NextOffset(n, offset))
  {
  }

  /** The record after one more page. */
  lemma {:induction false} NotedStep(r: Record, all: seq<User>, env: Answers, offset: nat)
    requires offset < |all| && IsPageStart(offset)
    ensures var visited := all[..NextOffset(|all|, offset)];
            var counted :=
              r.(successCount := Successes(visited, env), failureCount := |visited| - Successes(visited, env));
            Noted(r, visited, env) == if env.stores(Progress(offset)) then counted else Noted(r, all[..offset], env)
  {
    PageStartIs(|all|, offset);
    var visited := all[..NextOffset(|all|, offset)];
    assert visited[..offset] == all[..offset];
    hide PageStart, IsPageStart, Successes;
  }

  lemma {:induction false} ReachStep(n: nat, offset: nat, env: Answers)
    requires offset <= n
    ensures !env.lists(offset) ==> Reach(n, offset, env) == (offset, false)
    ensures env.lists(offset) && offset == n ==> Reach(n, offset, env) == (n, true)
    ensures env.lists(offset) && offset < n ==>
              Reach(n, offset, env) == Reach(n, NextOffset(n, offset), env)
  {
  }

  lemma {:induction false} NothingDelivered(table: map<(int, int), Delivery>, r: Record, env: Answers)
    ensures Delivered(table, r.id, [], env) == table && Successes([], env) == 0 && Messages([], r.messageText) == []
  {
  }

  /** The tables, messages and counts after the first `offset` recipients. */
  ghost predicate DoneUpTo(
      table: map<(int, int), Delivery>, messages: seq<Message>, r: Record, all: seq<User>,
      env: Answers, offset: nat,
      tableAfter: map<(int, int), Delivery>, messagesAfter: seq<Message>, successes: nat, failures: nat)
    requires offset <= |all|
  {
    && successes == Successes(all[..offset], env)
    && failures == offset - successes
    && tableAfter == Delivered(table, r.id, all[..offset], env)
    && messagesAfter == messages + Messages(all[..offset], r.messageText)
  }

  lemma {:induction false} NothingDone(
      table: map<(int, int), Delivery>, messages: seq<Message>, r: Record, all: seq<User>, env: Answers)
    ensures DoneUpTo(table, messages, r, all, env, 0, table, messages, 0, 0)
  {
    assert all[..0] == [];
    NothingDelivered(table, r, env);
  }

  lemma {:induction false} NothingNoted(r: Record, all: seq<User>, env: Answers)
    ensures Noted(r, all[..0], env) == r && IsPageStart(0)
  {
  }

  /** The records after one more page, if they were noted up to it before. */
  lemma {:induction false} OnePageNoted(
      start: seq<Record>, before: seq<Record>, after: seq<Record>, i: nat, all: seq<User>, env: Answers,
      offset: nat, successes: nat, failures: nat)
    requires i < |start| && offset < |all| && IsPageStart(offset)
    requires before == start[i := Noted(start[i], all[..offset], env)]
    requires var visited := all[..NextOffset(|all|, offset)];
             successes == Successes(visited, env) && failures == |visited| - successes
    requires after == if !env.stores(Progress(offset)) then before
                      else before[i := before[i].(successCount := successes, failureCount := failures)]
    ensures after == start[i := Noted(start[i], all[..NextOffset(|all|, offset)], env)]
  {
    NotedCounts(start[i], all[..offset], env);
    NotedStep(start[i], all, env, offset);
    hide Noted, Successes, NextOffset, IsPageStart;
  }

  lemma {:induction false} DoneCounts(
      table: map<(int, int), Delivery>, messages: seq<Message>, r: Record, all: seq<User>,
      env: Answers, offset: nat,
      tableAfter: map<(int, int), Delivery>, messagesAfter: seq<Message>, successes: nat, failures: nat)
    requires offset <= |all|
    requires DoneUpTo(table, messages, r, all, env, offset, tableAfter, messagesAfter, successes, failures)
    ensures successes == Successes(all[..offset], env) && failures == |all[..offset]| - Successes(all[..offset], env)
  {
  }

  lemma {:induction false} DeliveredInTurn(table: map<(int, int), Delivery>, id: int, a: seq<User>, b: seq<User>,
        env: Answers)
    ensures Delivered(Delivered(table, id, a, env), id, b, env) == Delivered(table, id, a + b, env)
    decreases |b|
  {
    if b == [] {
      assert a + b == a;
    } else {
      assert Init(a + b) == a + Init(b);
      DeliveredInTurn(table, id, a, Init(b), env);
    }
  }

  lemma {:induction false} SuccessesInTurn(a: seq<User>, b: seq<User>, env: Answers)
    ensures Successes(a + b, env) == Successes(a, env) + Successes(b, env)
    decreases |b|
  {
    if b == [] {
      assert a + b == a;
    } else {
      assert Init(a + b) == a + Init(b);
      SuccessesInTurn(a, Init(b), env);
    }
  }

  lemma {:induction false} MessagesInTurn(a: seq<User>, b: seq<User>, text: string)
    ensures Messages(a + b, text) == Messages(a, text) + Messages(b, text)
  {
  }

  lemma {:induction false} OnePageMore(
      table: map<(int, int), Delivery>, messages: seq<Message>, r: Record, all: seq<User>, env: Answers,
      offset: nat, next: nat, tableAt: map<(int, int), Delivery>, messagesAt: seq<Message>,
      successes: nat, failures: nat)
    requires offset <= next <= |all|
    requires DoneUpTo(table, messages, r, all, env, offset, tableAt, messagesAt, successes, failures)
    ensures var page := all[offset..next];
            DoneUpTo(table, messages, r, all, env, next, Delivered(tableAt, r.id, page, env),
                     messagesAt + Messages(page, r.messageText), successes + Successes(page, env),
                     failures + |page| - Successes(page, env))
  {
    hide Delivered, Successes, Messages;
    assert all[..offset] + all[offset..next] == all[..next];
    DeliveredInTurn(table, r.id, all[..offset], all[offset..next], env);
    SuccessesInTurn(all[..offset], all[offset..next], env);
    MessagesInTurn(all[..offset], all[offset..next], r.messageText);
  }

  /** What a dispatcher has written, and counted, at some point of a run. */
  datatype Written = Written(
    records: seq<Record>, deliveries: map<(int, int), Delivery>, messages: seq<Message>, successes: nat, failures: nat)

  /** Everything is written as it should be after the first `offset` recipients. */
  ghost predicate WrittenUpTo(start: Written, i: nat, all: seq<User>, env: Answers, offset: nat, w: Written) {
    && i < |start.records| == |w.records| && offset <= |all|
    && (offset < |all| ==> IsPageStart(offset))
    && DoneUpTo(start.deliveries, start.messages, start.records[i], all, env, offset,
                w.deliveries, w.messages, w.successes, w.failures)
    && w.records == start.records[i := Noted(start.records[i], all[..offset], env)]
  }

  /** What delivering one page adds. */
  ghost predicate PageDelivered(w: Written, i: nat, all: seq<User>, env: Answers, offset: nat, after: Written) {
    && i < |w.records| && offset <= |all|
    && var next := NextOffset(|all|, offset);
       var page := all[offset..next];
       && after.successes == w.successes + Successes(page, env)
       && after.failures == w.failures + |page| - Successes(page, env)
       && after.deliveries == Delivered(w.deliveries, w.records[i].id, page, env)
       && after.messages == w.messages + Messages(page, w.records[i].messageText)
       && after.records == if next == offset || !env.stores(Progress(offset)) then w.records
                           else w.records[i := w.records[i].(
                                                 successCount := after.successes, failureCount := after.failures)]
  }

  lemma {:induction false} NothingWritten(start: Written, i: nat, all: seq<User>, env: Answers)
    requires i < |start.records| && start.successes == start.failures == 0
    ensures WrittenUpTo(start, i, all, env, 0, start)
  {
    NothingDone(start.deliveries, start.messages, start.records[i], all, env);
    NothingNoted(start.records[i], all, env);
    hide DoneUpTo, Noted, IsPageStart;
  }

  lemma {:induction false} WrittenIs(start: Written, i: nat, all: seq<User>, env: Answers, offset: nat, w: Written)
    requires WrittenUpTo(start, i, all, env, offset, w)
    ensures i < |start.records| && offset <= |all|
    ensures DoneUpTo(start.deliveries, start.messages, start.records[i], all, env, offset,
                     w.deliveries, w.messages, w.successes, w.failures)
    ensures w.records == start.records[i := Noted(start.records[i], all[..offset], env)]
  {
    hide DoneUpTo, Noted;
  }

  lemma {:induction false} OnePageWritten(
      start: Written, i: nat, all: seq<User>, env: Answers, offset: nat, w: Written, after: Written)
    requires WrittenUpTo(start, i, all, env, offset, w) && PageDelivered(w, i, all, env, offset, after)
    ensures WrittenUpTo(start, i, all, env, NextOffset(|all|, offset), after)
  {
    var next := NextOffset(|all|, offset);
    NotedIs(start.records[i], all[..offset], env);
    OnePageMore(start.deliveries, start.messages, start.records[i], all, env, offset, next,
                w.deliveries, w.messages, w.successes, w.failures);
    DoneCounts(start.deliveries, start.messages, start.records[i], all, env, next,
               after.deliveries, after.messages, after.successes, after.failures);
    hide DoneUpTo, Delivered, Successes, Messages, Noted;
    if offset < next {
      PageStartIs(|all|, offset);
      hide IsPageStart;
      OnePageNoted(start.records, w.records, after.records, i, all, env, offset, after.successes, after.failures);
    }
  }

  /** The tables of the broadcasts, records in id order, and the messages handed to the message service. */
  class Dispatcher {
    const users: seq<User>
    var records: seq<Record>
    var deliveries: map<(int, int), Delivery>
    var messages: seq<Message>

    constructor (users: seq<User>)
      ensures this.users == users && records == [] && deliveries == map[] && messages == []
    {
      this.users := users;
      records, deliveries, messages := [], map[], [];
    }

    /**
     Selects the oldest pending record and claims it by compare-and-set. Between the two statements another
     dispatcher may claim it, and then this one goes away empty-handed.
     */
    method ClaimNextBroadcast(raced: bool) returns (claimed: Option<nat>)
      modifies this`records
      ensures var oldest := Oldest(old(records), |old(records)|);
              && claimed == (if raced then None else oldest)
              && records == (if oldest == None then old(records) else Claimed(old(records), oldest.value))
    {
      var selected := Oldest(records, |records|);
      if selected == None {
        return None;
      }
      var i := selected.value;
      if raced {
        records := Claimed(records, i);
      }
      if records[i].status != Pending {
        return None;
      }
      records := Claimed(records, i);
      return selected;
    }

    /** SELECT COUNT(*) with the query's conditions. */
    method CountRecipients(spec: Spec) returns (r: Result<nat, TargetError>)
      ensures r.Ok? <==> Supported(spec)
      ensures r.Ok? ==> r.value == |Recipients(users, spec)|
    {
      var where := BuildRecipientQuery(spec);
      if where.Err? {
        return Err(where.error);
      }
      hide SatisfiesAll, Targets;
      var count: nat := 0;
      for i := 0 to |users|
        invariant count == |Recipients(users[..i], spec)|
      {
        assert Init(users[..i + 1]) == users[..i];
        if SatisfiesAll(users[i], where.value) {
          count := count + 1;
        }
      }
      assert users[..|users|] == users;
      return Ok(count);
    }

    /** SELECT with the query's conditions, ORDER BY id LIMIT `limit` OFFSET `offset`. */
    method ListRecipients(spec: Spec, offset: nat, limit: int) returns (r: Result<seq<User>, TargetError>)
      ensures r.Ok? <==> Supported(spec)
      ensures r.Ok? ==> r.value == Slice(Recipients(users, spec), offset, if limit <= 0 then 50 else limit)
    {
      var where := BuildRecipientQuery(spec);
      if where.Err? {
        return Err(where.error);
      }
      hide SatisfiesAll, Targets;
      var size := if limit <= 0 then 50 else limit;
      var skipped: nat, page: seq<User> := 0, [];
      for i := 0 to |users|
        invariant skipped ==
                  (if |Recipients(users[..i], spec)| < offset then |Recipients(users[..i], spec)| else offset)
        invariant page == Slice(Recipients(users[..i], spec), offset, size)
      {
        assert Init(users[..i + 1]) == users[..i];
        if SatisfiesAll(users[i], where.value) {
          SliceOfMore(Recipients(users[..i], spec), users[i], offset, size);
          if skipped < offset {
            skipped := skipped + 1;
          } else if |page| < size {
            page := page + [users[i]];
          }
        }
      }
      assert users[..|users|] == users;
      return Ok(page);
    }

    method UpsertDelivery(id: int, u: User, outcome: SendOutcome, stored: bool)
      modifies this`deliveries
      ensures deliveries == if stored then old(deliveries)[(id, u.id) := DeliveryTo(u, outcome)] else old(deliveries)
    {
      if stored {
        deliveries := deliveries[(id, u.id) := DeliveryTo(u, outcome)];
      }
    }

    method Mark(i: nat, status: Status, successes: nat, failures: nat, error: string, stored: bool)
      requires i < |records|
      modifies this`records
      ensures records == if stored then old(records)[i := Ended(old(records)[i], status, successes, failures, error)]
                         else old(records)
    {
      if stored {
        records := records[i := Ended(records[i], status, successes, failures, error)];
      }
    }

    method UpdateProgress(i: nat, successes: nat, failures: nat, stored: bool)
      requires i < |records|
      modifies this`records
      ensures records == if stored
                         then old(records)[i := old(records)[i].(successCount := successes, failureCount := failures)]
                         else old(records)
    {
      if stored {
        records := records[i := records[i].(successCount := successes, failureCount := failures)];
      }
    }

    /** Sends to one page of recipients and records each delivery. */
    method SendPage(i: nat, page: seq<User>, env: Answers) returns (successes: nat, failures: nat)
      requires i < |records|
      modifies this`deliveries, this`messages
      ensures successes == Successes(page, env) && failures == |page| - successes
      ensures deliveries == Delivered(old(deliveries), records[i].id, page, env)
      ensures messages == old(messages) + Messages(page, records[i].messageText)
    {
      successes, failures := 0, 0;
      var id, text := records[i].id, records[i].messageText;
      for k := 0 to |page|
        invariant successes == Successes(page[..k], env) && failures == k - successes
        invariant deliveries == Delivered(old(deliveries), id, page[..k], env)
        invariant messages == old(messages) + Messages(page[..k], text)
      {
        var u := page[k];
        assert Init(page[..k + 1]) == page[..k];
        messages := messages + [Message(u.id, text)];
        assert Messages(page[..k + 1], text) == Messages(page[..k], text) + [Message(u.id, text)];
        var outcome := env.send(u.id);
        if outcome.Refused? {
          failures := failures + 1;
        } else {
          successes := successes + 1;
        }
        UpsertDelivery(id, u, outcome, env.stores(Row(u.id)));
      }
      assert page[..|page|] == page;
    }

    /**
     One turn of the dispatcher. `raced` says whether another one claims the selected record first, `send` is what
     the message service answers for each user, and `lists` whether the listing at an offset succeeds.
     */
    method ProcessNext(raced: bool, env: Answers) returns (processed: bool)
      modifies this
      ensures var oldest := Oldest(old(records), |old(records)|);
              && processed == (oldest.Some? && !raced)
              && (oldest == None ==> records == old(records))
              && (oldest.Some? && raced ==> records == Claimed(old(records), oldest.value))
              && (!processed ==> deliveries == old(deliveries) && messages == old(messages))
              && (processed ==>
                    var r := Claimed(old(records), oldest.value)[oldest.value];
                    var visited := Visited(users, r, env);
                    && records == old(records)[oldest.value := Outcome(users, r, env)]
                    && deliveries == Delivered(old(deliveries), r.id, visited, env)
                    && messages == old(messages) + Messages(visited, r.messageText))
    {
      var claimed := ClaimNextBroadcast(raced);
      if claimed == None {
        return false;
      }
      DeliverClaimed(claimed.value, env);
      return true;
    }

    /** Lists one page, sends to it and notes the progress; the page is empty at the end of the recipients. */
    method DeliverPage(i: nat, spec: Spec, offset: nat, successes: nat, failures: nat, env: Answers)
      returns (size: nat, successesAfter: nat, failuresAfter: nat)
      requires i < |records| && Supported(spec) && offset <= |Recipients(users, spec)|
      modifies this`records, this`deliveries, this`messages
      ensures offset + size == NextOffset(|Recipients(users, spec)|, offset)
      ensures var page := Recipients(users, spec)[offset..offset + size];
              && successesAfter == successes + Successes(page, env)
              && failuresAfter == failures + size - Successes(page, env)
              && deliveries == Delivered(old(deliveries), old(records)[i].id, page, env)
              && messages == old(messages) + Messages(page, old(records)[i].messageText)
      ensures records == if size == 0 || !env.stores(Progress(offset)) then old(records)
                         else old(records)[i := old(records)[i].(
                                             successCount := successesAfter, failureCount := failuresAfter)]
    {
      hide Recipients, Targets, Supported, Delivered, Successes, Messages;
      var page := ListRecipients(spec, offset, BATCH_SIZE);
      assert page.value == Recipients(users, spec)[offset..offset + |page.value|];
      successesAfter, failuresAfter := successes, failures;
      if |page.value| == 0 {
        NothingDelivered(deliveries, records[i], env);
        return 0, successes, failures;
      }
      var sent, refused := SendPage(i, page.value, env);
      size, successesAfter, failuresAfter := |page.value|, successes + sent, failures + refused;
      UpdateProgress(i, successesAfter, failuresAfter, env.stores(Progress(offset)));
    }

    /** Pages through the recipients until the listing is empty or fails. */
    method DeliverPages(i: nat, spec: Spec, env: Answers)
      returns (listed: bool, successes: nat, failures: nat)
      requires i < |records| && Supported(spec)
      modifies this`records, this`deliveries, this`messages
      ensures var all := Recipients(users, spec);
              var reached := Reach(|all|, 0, env).0;
              && listed == Reach(|all|, 0, env).1
              && DoneUpTo(old(deliveries), old(messages), old(records)[i], all, env, reached,
                          deliveries, messages, successes, failures)
              && records == old(records)[i := Noted(old(records)[i], all[..reached], env)]
    {
      ghost var all := Recipients(users, spec);
      hide Recipients, Supported, Reach, WrittenUpTo, DoneUpTo, Delivered, Successes, Messages, Noted, NextOffset;
      var offset: nat := 0;
      successes, failures := 0, 0;
      ghost var start := Written(records, deliveries, messages, 0, 0);
      NothingWritten(start, i, all, env);
      while true
        invariant 0 <= offset <= |all| && |records| == |start.records|
        invariant WrittenUpTo(start, i, all, env, offset, Written(records, deliveries, messages, successes, failures))
        invariant Reach(|all|, 0, env) == Reach(|all|, offset, env)
        decreases |all| - offset
      {
        ghost var before := Written(records, deliveries, messages, successes, failures);
        ReachStep(|all|, offset, env);
        listed := env.lists(offset);
        if !listed {
          break;
        }
        var size;
        size, successes, failures := DeliverPage(i, spec, offset, successes, failures, env);
        OnePageWritten(start, i, all, env, offset, before,
                       Written(records, deliveries, messages, successes, failures));
        if size == 0 {
          break;
        }
        offset := offset + size;
      }
      WrittenIs(start, i, all, env, offset, Written(records, deliveries, messages, successes, failures));
    }

    method DeliverClaimed(i: nat, env: Answers)
      requires i < |records| && records[i].status == Running && records[i].errorMessage == ""
      modifies this
      ensures records == old(records)[i := Outcome(users, old(records)[i], env)]
      ensures deliveries == Delivered(old(deliveries), old(records)[i].id, Visited(users, old(records)[i], env), env)
      ensures messages == old(messages) + Messages(Visited(users, old(records)[i], env), old(records)[i].messageText)
    {
      hide Recipients, Supported, Delivered, Successes, Reach, TrimSpace;
      NothingDelivered(deliveries, records[i], env);
      var stored := env.stores(End);
      if records[i].spec == None {
        Mark(i, Failed, 0, 0, INVALID_SPEC, stored);
        return;
      }
      var spec := records[i].spec.value;
      var total := CountRecipients(spec);
      if total.Err? {
        Mark(i, Failed, 0, 0, QueryError(spec), stored);
        return;
      }
      if !env.counts {
        Mark(i, Failed, 0, 0, COUNTING_FAILED, stored);
        return;
      }
      if total.value == 0 {
        Mark(i, Failed, 0, 0, NO_RECIPIENTS, stored);
        return;
      }
      NotedCounts(records[i], Visited(users, records[i], env), env);
      var listed, successes, failures := DeliverPages(i, spec, env);
      if !listed {
        Mark(i, Failed, successes, failures, LISTING_FAILED, stored);
      } else if successes == 0 && failures > 0 {
        Mark(i, Failed, successes, failures, ALL_FAILED, stored);
      } else {
        Mark(i, Completed, successes, failures, "", stored);
      }
    }
  }

  // ---------- Conservation ----------

  /** Every delivery recorded for the broadcast is to one of its recipients. */
  ghost predicate DeliveriesFit(table: map<(int, int), Delivery>, id: int, recipients: seq<User>) {
    forall k :: k in table && k.0 == id ==> HasId(recipients, k.1)
  }

  function RowsOf(table: map<(int, int), Delivery>, id: int, sent: bool): set<(int, int)> {
    set k | k in table && k.0 == id && table[k].sent == sent
  }

  function SentTo(visited: seq<User>, id: int, env: Answers, sent: bool): set<(int, int)> {
    set i | 0 <= i < |visited| && (env.send(visited[i].id) == Accepted) == sent :: (id, visited[i].id)
  }

  lemma {:induction false} DeliveredRows(table: map<(int, int), Delivery>, id: int, visited: seq<User>,
        env: Answers, k: (int, int))
    requires ById(visited)
    ensures var after := Delivered(table, id, visited, env);
            if k.0 == id && HasId(visited, k.1)
               && env.stores(Row(k.1))
            then k in after && after[k].sent == (env.send(k.1) == Accepted)
            else (k in after <==> k in table) && (k in table ==> after[k] == table[k])
  {
    if visited != [] {
      DeliveredRows(table, id, Init(visited), env, k);
      AppendId(Init(visited), Last(visited));
      assert visited == Init(visited) + [Last(visited)];
    }
  }

  lemma {:induction false} SentToStep(visited: seq<User>, id: int, env: Answers, sent: bool)
    requires visited != [] && ById(visited)
    ensures var before := SentTo(Init(visited), id, env, sent);
            var last := Last(visited);
            && (id, last.id) !in before
            && SentTo(visited, id, env, sent)
            == if (env.send(last.id) == Accepted) == sent then before + {(id, last.id)} else before
  {
    var before := SentTo(Init(visited), id, env, sent);
    var last := Last(visited);
    assert last == visited[|visited| - 1];
    forall k ensures k in SentTo(visited, id, env, sent)
                <==> k in before || ((env.send(last.id) == Accepted) == sent && k == (id, last.id))
    {
      if k in before {
        var i :| 0 <= i < |visited| - 1 && (env.send(visited[i].id) == Accepted) == sent && k == (id, visited[i].id);
      }
    }
  }

  lemma {:induction false} SentToCounts(visited: seq<User>, id: int, env: Answers)
    requires ById(visited)
    ensures |SentTo(visited, id, env, true)| == Successes(visited, env)
    ensures |SentTo(visited, id, env, false)| == |visited| - Successes(visited, env)
  {
    if visited != [] {
      SentToCounts(Init(visited), id, env);
      SentToStep(visited, id, env, true);
      SentToStep(visited, id, env, false);
    }
  }

  lemma {:induction false} RowsAfterDelivery(table: map<(int, int), Delivery>, id: int, visited: seq<User>,
        env: Answers, sent: bool)
    requires ById(visited) && DeliveriesFit(table, id, visited) && forall u :: u in visited ==> env.stores(Row(u.id))
    ensures RowsOf(Delivered(table, id, visited, env), id, sent) == SentTo(visited, id, env, sent)
  {
    var after := Delivered(table, id, visited, env);
    forall k ensures k in RowsOf(after, id, sent) <==> k in SentTo(visited, id, env, sent) {
      DeliveredRows(table, id, visited, env, k);
      if k.0 == id && HasId(visited, k.1) {
        var i :| 0 <= i < |visited| && visited[i].id == k.1;
        assert k == (id, visited[i].id);
      }
    }
  }

  /** Deliveries of an interrupted run still fit, so a rerun after a restart starts from a table that fits. */
  lemma {:induction false} InterruptedDeliveriesFit(
      table: map<(int, int), Delivery>, id: int, recipients: seq<User>, reached: nat, env: Answers)
    requires ById(recipients) && reached <= |recipients| && DeliveriesFit(table, id, recipients)
    ensures DeliveriesFit(Delivered(table, id, recipients[..reached], env), id, recipients)
  {
    var after := Delivered(table, id, recipients[..reached], env);
    forall k | k in after && k.0 == id ensures HasId(recipients, k.1) {
      DeliveredRows(table, id, recipients[..reached], env, k);
      if HasId(recipients[..reached], k.1) {
        var i :| 0 <= i < reached && recipients[..reached][i].id == k.1;
        assert recipients[i].id == k.1;
      }
    }
  }

  lemma {:induction false} ReachAll(n: nat, offset: nat, env: Answers)
    requires offset <= n && forall o: nat :: o <= n ==> env.lists(o)
    ensures Reach(n, offset, env) == (n, true)
    decreases n - offset
  {
    if offset < n {
      ReachAll(n, NextOffset(n, offset), env);
    }
  }

  lemma {:induction false} RecipientsAreFew(users: seq<User>, spec: Spec)
    ensures |Recipients(users, spec)| <= |users|
  {
    hide Targets;
    if users != [] {
      RecipientsAreFew(Init(users), spec);
    }
  }

  lemma {:induction false} SuccessesIff(visited: seq<User>, env: Answers)
    ensures Successes(visited, env) > 0 <==> exists u :: u in visited && env.send(u.id) == Accepted
  {
    if visited != [] {
      SuccessesIff(Init(visited), env);
      assert visited == Init(visited) + [Last(visited)];
    }
  }

  /** The recipients are counted, and every listing succeeds. */
  ghost predicate AllListed(users: seq<User>, env: Answers) {
    env.counts && forall o: nat :: o <= |users| ==> env.lists(o)
  }

  lemma {:induction false} EverybodyIsVisited(users: seq<User>, r: Record, env: Answers)
    requires ById(users) && r.spec.Some? && Supported(r.spec.value) && AllListed(users, env)
    ensures ById(Recipients(users, r.spec.value))
    ensures Visited(users, r, env) == Recipients(users, r.spec.value)
    ensures Reach(|Recipients(users, r.spec.value)|, 0, env) == (|Recipients(users, r.spec.value)|, true)
  {
    var recipients := Recipients(users, r.spec.value);
    RecipientsAreTargets(users, r.spec.value);
    RecipientsAreFew(users, r.spec.value);
    ReachAll(|recipients|, 0, env);
    assert recipients[..|recipients|] == recipients;
  }

  /**
   Conservation: when the recipients are listed, every one is visited once, in id order. If the end of the run is
   stored, the counts add up to the number of recipients, and the broadcast completes exactly when some delivery
   succeeded. If the delivery rows are stored as well, the counts are the numbers of sent and failed rows in the
   delivery table, whatever an earlier, interrupted run left there.
   */
  lemma {:induction false} CountsMatchDeliveries(
      users: seq<User>, r: Record, table: map<(int, int), Delivery>, env: Answers)
    requires ById(users) && r.spec.Some? && Supported(r.spec.value) && AllListed(users, env)
    requires DeliveriesFit(table, r.id, Recipients(users, r.spec.value))
    ensures var recipients := Recipients(users, r.spec.value);
            var end := Outcome(users, r, env);
            var after := Delivered(table, r.id, Visited(users, r, env), env);
            && Visited(users, r, env) == recipients
            && (env.stores(End) ==>
                  && end.successCount + end.failureCount == |recipients|
                  && (end.status == Completed <==> exists u :: u in recipients && env.send(u.id) == Accepted)
                  && (end.status == Failed <==> end.status != Completed))
            && (env.stores(End) && (forall u :: u in recipients ==> env.stores(Row(u.id))) ==>
                  && end.successCount == |RowsOf(after, r.id, true)|
                  && end.failureCount == |RowsOf(after, r.id, false)|)
  {
    var recipients := Recipients(users, r.spec.value);
    EverybodyIsVisited(users, r, env);
    if forall u :: u in recipients ==> env.stores(Row(u.id)) {
      RowsAfterDelivery(table, r.id, recipients, env, true);
      RowsAfterDelivery(table, r.id, recipients, env, false);
    }
    SentToCounts(recipients, r.id, env);
    SuccessesIff(recipients, env);
    hide Recipients, RowsOf, SentTo, Successes, Delivered, DeliveriesFit, Targets, ById, Supported, AllListed, Noted;
  }

  // ---------- Writes that fail ----------

  lemma {:induction false} SameSizeSameSet<T>(part: set<T>, whole: set<T>)
    requires part <= whole
    ensures |part| <= |whole| && (|part| == |whole| <==> part == whole)
  {
    assert whole == part + (whole - part);
  }

  /** In a table without rows of the broadcast, what it delivers leaves the rows whose writes are stored. */
  lemma {:induction false} FirstRows(table: map<(int, int), Delivery>, id: int, visited: seq<User>, env: Answers,
        sent: bool, k: (int, int))
    requires ById(visited) && forall other :: other in table ==> other.0 != id
    ensures k in RowsOf(Delivered(table, id, visited, env), id, sent)
       <==> k in SentTo(visited, id, env, sent) && env.stores(Row(k.1))
  {
    DeliveredRows(table, id, visited, env, k);
    if k.0 == id && HasId(visited, k.1) {
      var i :| 0 <= i < |visited| && visited[i].id == k.1;
      assert k == (id, visited[i].id);
    }
  }

  /** Every recipient's row is stored exactly when the stored rows are all there should be. */
  lemma {:induction false} StoredIff(visited: seq<User>, id: int, env: Answers)
    ensures (forall u :: u in visited ==> env.stores(Row(u.id)))
       <==> forall b, k :: k in SentTo(visited, id, env, b) ==> env.stores(Row(k.1))
  {
    if forall b, k :: k in SentTo(visited, id, env, b) ==> env.stores(Row(k.1)) {
      forall i | 0 <= i < |visited| ensures env.stores(Row(visited[i].id)) {
        assert (id, visited[i].id) in SentTo(visited, id, env, env.send(visited[i].id) == Accepted);
      }
    }
  }

  /**
   Nobody looks whether a delivery row is stored. In a table without rows of the broadcast, the counts of a run whose
   end is stored are the numbers of its rows exactly when every row is.
   */
  lemma {:induction false} CountsMatchRowsIff(
      users: seq<User>, r: Record, table: map<(int, int), Delivery>, env: Answers)
    requires ById(users) && r.spec.Some? && Supported(r.spec.value) && AllListed(users, env) && env.stores(End)
    requires forall k :: k in table ==> k.0 != r.id
    ensures var end := Outcome(users, r, env);
            var after := Delivered(table, r.id, Visited(users, r, env), env);
            && |RowsOf(after, r.id, true)| <= end.successCount && |RowsOf(after, r.id, false)| <= end.failureCount
            && (end.successCount == |RowsOf(after, r.id, true)| && end.failureCount == |RowsOf(after, r.id, false)|
                <==> forall u :: u in Recipients(users, r.spec.value) ==> env.stores(Row(u.id)))
  {
    var recipients := Recipients(users, r.spec.value);
    EverybodyIsVisited(users, r, env);
    CountsMatchDeliveries(users, r, table, env);
    SentToCounts(recipients, r.id, env);
    var after := Delivered(table, r.id, recipients, env);
    var sent, refused := SentTo(recipients, r.id, env, true), SentTo(recipients, r.id, env, false);
    forall k, b ensures k in RowsOf(after, r.id, b) <==> k in SentTo(recipients, r.id, env, b) && env.stores(Row(k.1)) {
      FirstRows(table, r.id, recipients, env, b, k);
    }
    SameSizeSameSet(RowsOf(after, r.id, true), sent);
    SameSizeSameSet(RowsOf(after, r.id, false), refused);
    StoredIff(recipients, r.id, env);
    assert Outcome(users, r, env).successCount == Successes(recipients, env);
    hide Outcome, Delivered, RowsOf, SentTo, Successes, Recipients, AllListed, Supported;
  }

  /**
   A run whose last write fails leaves the record running, whatever it delivered. Once a start has made it pending
   again, the next run sends to every recipient again.
   */
  lemma {:induction false} UnstoredEndIsSentAgain(users: seq<User>, r: Record, env: Answers, again: Answers)
    requires ById(users) && r.spec.Some? && Supported(r.spec.value) && AllListed(users, again)
    requires r.status == Running && !env.stores(End)
    ensures var left := Outcome(users, r, env);
            && left.status == Running
            && Visited(users, left, again) == Recipients(users, r.spec.value)
  {
    NotedCounts(r, Visited(users, r, env), env);
    var left := Outcome(users, r, env);
    EverybodyIsVisited(users, left, again);
    hide Recipients, Noted, AllListed, Supported, Reach;
  }
}
