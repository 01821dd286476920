/**
 The auto-message service: the checks in front of the store, and what every edit and every scheduled
 attempt keeps.
 */
module AutoMessageService {
  import opened Prelude
  import opened GoStrings
  import opened AutoMessageRows
  import opened AutoMessageListing
  import opened AutoMessageEdits

  const MIN_INTERVAL := 5
  const MAX_INTERVAL := 1440
  const MAX_ITEMS := 100
  const MAX_CONTENT_LENGTH := 1000

  const SEQUENCE := "sequence"
  const DELAY := "delay"
  const TEXT := "text"

  datatype ServiceError =
    | InvalidInterval
    | UnsupportedSendMode
    | UnsupportedFirstSendMode
    | UnsupportedContentType
    | ContentEmpty
    | ContentTooLong
    | ItemLimitExceeded
    | NoEnabledItems
    | Store(error: StoreError)

  // ---------- Checks ----------

  predicate ValidInterval(minutes: int) {
    MIN_INTERVAL <= minutes <= MAX_INTERVAL
  }

  function InputError(input: ItemInput): Option<ServiceError> {
    var content := TrimSpace(input.content);
    if content == "" then Some(ContentEmpty)
    else if |content| > MAX_CONTENT_LENGTH then Some(ContentTooLong)
    else if TrimSpace(input.contentType) != "" && TrimSpace(input.contentType) != TEXT then Some(UnsupportedContentType)
    else None
  }

  function FirstInputError(inputs: seq<ItemInput>): Option<ServiceError> {
    if inputs == [] then None
    else if FirstInputError(Init(inputs)).Some? then FirstInputError(Init(inputs))
    else InputError(Last(inputs))
  }

  predicate SomeEnabled(inputs: seq<ItemInput>) {
    exists i :: 0 <= i < |inputs| && inputs[i].enabled
  }

  function ParamsError(params: SaveParams): Option<ServiceError> {
    if !ValidInterval(params.intervalMinutes) then Some(InvalidInterval)
    else if params.sendMode != "" && params.sendMode != SEQUENCE then Some(UnsupportedSendMode)
    else if params.firstSendMode != "" && params.firstSendMode != DELAY then Some(UnsupportedFirstSendMode)
    else if |params.items| > MAX_ITEMS then Some(ItemLimitExceeded)
    else if FirstInputError(params.items).Some? then FirstInputError(params.items)
    else if params.enabled && !SomeEnabled(params.items) then Some(NoEnabledItems)
    else None
  }

  lemma {:induction false} FirstErrorStays(inputs: seq<ItemInput>, k: nat)
    requires k <= |inputs| && FirstInputError(inputs[..k]).Some?
    ensures FirstInputError(inputs) == FirstInputError(inputs[..k])
    decreases |inputs| - k
  {
    if k == |inputs| {
      assert inputs[..k] == inputs;
    } else {
      assert Init(inputs[..k + 1]) == inputs[..k];
      FirstErrorStays(inputs, k + 1);
    }
  }

  lemma {:induction false} NoneEnabledYet(inputs: seq<ItemInput>)
    requires inputs == []
    ensures !SomeEnabled(inputs)
  {
  }

  lemma {:induction false} SomeEnabledOfOneMore(inputs: seq<ItemInput>, i: nat)
    requires i < |inputs|
    ensures SomeEnabled(inputs[..i + 1]) <==> SomeEnabled(inputs[..i]) || inputs[i].enabled
  {
    if SomeEnabled(inputs[..i]) {
      var j :| 0 <= j < i && inputs[..i][j].enabled;
      assert inputs[..i + 1][j].enabled;
    }
    if inputs[i].enabled {
      assert inputs[..i + 1][i].enabled;
    }
  }

  method ValidateConfigParams(params: SaveParams) returns (r: Option<ServiceError>)
    ensures r == ParamsError(params)
  {
    hide ValidInterval, InputError, SomeEnabled;
    if !ValidInterval(params.intervalMinutes) {
      return Some(InvalidInterval);
    }
    if params.sendMode != "" && params.sendMode != SEQUENCE {
      return Some(UnsupportedSendMode);
    }
    if params.firstSendMode != "" && params.firstSendMode != DELAY {
      return Some(UnsupportedFirstSendMode);
    }
    if |params.items| > MAX_ITEMS {
      return Some(ItemLimitExceeded);
    }
    NoneEnabledYet(params.items[..0]);
    var enabledCount := 0;
    for i := 0 to |params.items|
      invariant FirstInputError(params.items[..i]) == None
      invariant enabledCount >= 0 && (enabledCount > 0 <==> SomeEnabled(params.items[..i]))
    {
      var items := params.items;
      assert Init(items[..i + 1]) == items[..i];
      SomeEnabledOfOneMore(items, i);
      var error := InputError(items[i]);
      if error.Some? {
        FirstErrorStays(items, i + 1);
        return error;
      }
      if items[i].enabled {
        enabledCount := enabledCount + 1;
      }
    }
    assert params.items[..|params.items|] == params.items;
    if params.enabled && enabledCount == 0 {
      return Some(NoEnabledItems);
    }
    return None;
  }

  /** A text without its surrounding space, or the default for a blank one. */
  function OrDefault(text: string, default: string): string {
    if TrimSpace(text) == "" then default else TrimSpace(text)
  }

  function NormalizedInput(input: ItemInput): ItemInput {
    input.(content := TrimSpace(input.content), contentType := OrDefault(input.contentType, TEXT))
  }

  function NormalizedInputs(inputs: seq<ItemInput>): (r: seq<ItemInput>)
    ensures |r| == |inputs|
  {
    seq(|inputs|, i requires 0 <= i < |inputs| =>
      NormalizedInput(inputs[i]).(sortOrder := SortOrderOf(inputs, i)))
  }

  function NormalizedParams(params: SaveParams): SaveParams {
    params.(sendMode := OrDefault(params.sendMode, SEQUENCE), firstSendMode := OrDefault(params.firstSendMode, DELAY),
            items := NormalizedInputs(params.items))
  }

  /** Rewrites the items in place, as the service does with the caller's list. */
  method NormalizeInputs(inputs: array<ItemInput>)
    modifies inputs
    ensures inputs[..] == NormalizedInputs(old(inputs[..]))
  {
    for i := 0 to inputs.Length
      invariant forall j :: 0 <= j < i ==> inputs[j] == NormalizedInputs(old(inputs[..]))[j]
      invariant forall j :: i <= j < inputs.Length ==> inputs[j] == old(inputs[j])
    {
      inputs[i] := NormalizedInput(inputs[i]);
      if inputs[i].sortOrder <= 0 {
        inputs[i] := inputs[i].(sortOrder := i + 1);
      }
    }
  }

  lemma {:induction false} OrDefaultIsFixed(text: string, default: string)
    requires default != "" && Trimmed(default)
    ensures OrDefault(OrDefault(text, default), default) == OrDefault(text, default)
  {
    TrimSpaceTrims(text);
    TrimSpaceFixes(TrimSpace(text));
    TrimSpaceFixes(default);
    hide TrimSpace, Trimmed;
  }

  lemma {:induction false} DefaultsAreTrimmed()
    ensures Trimmed(SEQUENCE) && Trimmed(DELAY) && Trimmed(TEXT)
  {
  }

  /** Normalizing once is enough, and the order it writes down is the one the store would have chosen. */
  lemma {:induction false} NormalizingIsIdempotent(params: SaveParams)
    ensures NormalizedParams(NormalizedParams(params)) == NormalizedParams(params)
    ensures forall i :: 0 <= i < |params.items| ==>
              SortOrderOf(NormalizedInputs(params.items), i) == SortOrderOf(params.items, i)
  {
    DefaultsAreTrimmed();
    OrDefaultIsFixed(params.sendMode, SEQUENCE);
    OrDefaultIsFixed(params.firstSendMode, DELAY);
    hide Trimmed, OrDefault;
    var inputs := params.items;
    forall i | 0 <= i < |inputs|
      ensures TrimSpace(TrimSpace(inputs[i].content)) == TrimSpace(inputs[i].content)
      ensures OrDefault(OrDefault(inputs[i].contentType, TEXT), TEXT) == OrDefault(inputs[i].contentType, TEXT)
    {
      TrimSpaceTrims(inputs[i].content);
      TrimSpaceFixes(TrimSpace(inputs[i].content));
      OrDefaultIsFixed(inputs[i].contentType, TEXT);
    }
    hide TrimSpace;
    assert NormalizedInputs(NormalizedInputs(inputs)) == NormalizedInputs(inputs);
  }

  lemma {:induction false} NoInputError(inputs: seq<ItemInput>, i: nat)
    requires FirstInputError(inputs) == None && i < |inputs|
    ensures InputError(inputs[i]) == None
  {
    hide InputError;
    if i < |inputs| - 1 {
      NoInputError(Init(inputs), i);
    }
  }

  /** What passes the checks is normalized to the one mode and content type there are. */
  lemma {:induction false} AcceptedModesAreDefault(params: SaveParams)
    requires ParamsError(params) == None
    ensures NormalizedParams(params).sendMode == SEQUENCE && NormalizedParams(params).firstSendMode == DELAY
    ensures forall i :: 0 <= i < |params.items| ==> NormalizedParams(params).items[i].contentType == TEXT
  {
    DefaultsAreTrimmed();
    TrimSpaceFixes(SEQUENCE);
    TrimSpaceFixes(DELAY);
    assert TrimSpace("") == "";
    hide TrimSpace, Trimmed;
    forall i | 0 <= i < |params.items| ensures InputError(params.items[i]) == None {
      NoInputError(params.items, i);
    }
  }

  // ---------- Steps ----------

  datatype Step =
    | GetConfig
    | SaveConfig(params: SaveParams, ids: seq<int>)
    | Enable(intervalMinutes: int)
    | Disable
    | AddItem(input: ItemInput, id: int)
    | UpdateItem(itemId: int, input: ItemInput, restamped: bool)
    | DeleteItem(itemId: int)
    | SortItems(itemIds: seq<int>)
    | Attempt(active: bool, send: Candidate -> SendResult)

  predicate Possible(rows: Rows, step: Step) {
    match step
    case SaveConfig(params, ids) => |ids| == |params.items| && FreshIds(rows.items, ids)
    case AddItem(_, id) => FreshIds(rows.items, [id])
    case _ => true
  }

  function FromStore(before: Rows, r: Result<Rows, StoreError>): (Result<(), ServiceError>, Rows) {
    match r
    case Err(e) => (Err(Store(e)), before)
    case Ok(rows) => (Ok(()), rows)
  }

  function FromEdit(r: (Result<(), StoreError>, Rows)): (Result<(), ServiceError>, Rows) {
    match r.0
    case Err(e) => (Err(Store(e)), r.1)
    case Ok(_) => (Ok(()), r.1)
  }

  /** One request, or one scheduled attempt, by a permitted actor: its answer and the rows after it. */
  function Take(rows: Rows, step: Step, now: int): (Result<(), ServiceError>, Rows)
    requires Possible(rows, step)
  {
    match step
    case GetConfig => (Ok(()), Ensured(rows))
    case SaveConfig(params, ids) =>
      if ParamsError(params).Some? then (Err(ParamsError(params).value), rows)
      else FromStore(rows, Saved(rows, NormalizedParams(params), now, ids))
    case Enable(interval) =>
      if interval > 0 && !ValidInterval(interval) then (Err(InvalidInterval), rows)
      else if Activated(rows, interval, now).Err? then (Err(NoEnabledItems), rows)
      else (Ok(()), Activated(rows, interval, now).value)
    case Disable => (Ok(()), Disabled(rows))
    case AddItem(input, id) =>
      if |Live(rows.items)| >= MAX_ITEMS then (Err(ItemLimitExceeded), rows)
      else if InputError(input).Some? then (Err(InputError(input).value), rows)
      else (Ok(()), Added(rows, NormalizedInput(input), id))
    case UpdateItem(id, input, restamped) =>
      if InputError(input).Some? then (Err(InputError(input).value), rows)
      else FromEdit(Updated(rows, id, NormalizedInput(input), restamped))
    case DeleteItem(id) => FromEdit(Deleted(rows, id))
    case SortItems(ids) =>
      if ids == [] then (Err(Store(ItemNotFound)), rows) else FromEdit(Sorted(rows, ids))
    case Attempt(active, send) => FromStore(rows, Processed(rows, active, now, send))
  }

  // ---------- What every step keeps ----------

  ghost predicate ConfigKept(config: Config) {
    && ValidInterval(config.intervalMinutes)
    && (config.enabled ==> config.nextSendAt.Some?)
    && config.currentIndex >= 0
    && config.version >= 0
  }

  ghost predicate Kept(rows: Rows) {
    && (rows.config.Some? ==> ConfigKept(rows.config.value))
    && DistinctIds(rows.items)
    && |Live(rows.items)| <= MAX_ITEMS
  }

  lemma {:induction false} RowsKeepLiveCount(before: seq<Item>, after: seq<Item>)
    requires |before| == |after|
    requires forall i :: 0 <= i < |before| ==> after[i].id == before[i].id && (before[i].deleted ==> after[i].deleted)
    ensures |Live(after)| <= |Live(before)|
    ensures DistinctIds(before) ==> DistinctIds(after)
  {
    if before != [] {
      RowsKeepLiveCount(Init(before), Init(after));
    }
  }

  lemma {:induction false} PlacedKeepsRows(items: seq<Item>, ids: seq<int>, k: nat)
    requires k <= |ids|
    ensures |Live(Placed(items, ids, k))| <= |Live(items)|
    ensures DistinctIds(items) ==> DistinctIds(Placed(items, ids, k))
  {
    RowsKeepLiveCount(items, Placed(items, ids, k));
  }

  lemma {:induction false} NormalizedKeeps(rows: Rows)
    requires rows.config.Some? && Kept(rows)
    ensures Kept(Normalized(rows))
  {
  }

  lemma {:induction false} SaveKeeps(rows: Rows, params: SaveParams, ids: seq<int>, now: int)
    requires Kept(rows) && Possible(rows, SaveConfig(params, ids))
    ensures Kept(Take(rows, SaveConfig(params, ids), now).1)
  {
    var normalized := NormalizedParams(params);
    var r := Saved(rows, normalized, now, ids);
    if ParamsError(params) == None && r.Ok? {
      SaveKeepsEveryInputIff(rows, normalized, now, ids);
      SavedIdsAreDistinct(rows, normalized, now, ids);
    }
  }

  lemma {:induction false} RowEditsKeep(rows: Rows, id: int, input: ItemInput, restamped: bool)
    requires Kept(rows)
    ensures Kept(Updated(rows, id, input, restamped).1) && Kept(Deleted(rows, id).1)
  {
    RowsKeepLiveCount(rows.items, EditRow(rows.items, id, input.content, input.enabled));
    RowsKeepLiveCount(rows.items, DropRow(rows.items, id));
    var edited := Ensured(rows).(items := EditRow(rows.items, id, input.content, input.enabled));
    var dropped := Ensured(rows).(items := DropRow(rows.items, id));
    NormalizedKeeps(edited);
    NormalizedKeeps(dropped);
  }

  lemma {:induction false} ItemStepKeeps(rows: Rows, step: Step, now: int)
    requires Kept(rows) && (step.UpdateItem? || step.DeleteItem?)
    ensures Kept(Take(rows, step, now).1)
  {
    hide Updated, Deleted, Kept, InputError;
    match step {
      case UpdateItem(id, input, restamped) => RowEditsKeep(rows, id, NormalizedInput(input), restamped);
      case DeleteItem(id) => RowEditsKeep(rows, id, ItemInput(0, 0, "", "", false), false);
    }
  }

  lemma {:induction false} PlacedRowsAreKept(rows: Rows, ids: seq<int>)
    requires Kept(rows)
    ensures var config := EnsuredConfig(rows);
            Kept(rows.(config := Some(config.(version := config.version + 1)), items := Placed(rows.items, ids, |ids|)))
  {
    PlacedKeepsRows(rows.items, ids, |ids|);
    hide Placed, Live, DistinctIds;
  }

  lemma {:induction false} EnsuredKeeps(rows: Rows)
    requires Kept(rows)
    ensures Kept(Ensured(rows))
  {
    hide Live, DistinctIds;
  }

  lemma {:induction false} SortedIsKept(rows: Rows, ids: seq<int>)
    requires Kept(rows)
    ensures Kept(Sorted(rows, ids).1)
  {
    SortRuns(rows, ids);
    hide Kept, Placed, SortInputs, Normalized, SortAccepted, ListItems;
    EnsuredKeeps(rows);
    if Sorted(rows, ids).0.Ok? {
      PlacedRowsAreKept(rows, ids);
      var config := EnsuredConfig(rows);
      NormalizedKeeps(rows.(config := Some(config.(version := config.version + 1)),
                            items := Placed(rows.items, ids, |ids|)));
    }
  }

  lemma {:induction false} SortKeeps(rows: Rows, ids: seq<int>, now: int)
    requires Kept(rows)
    ensures Kept(Take(rows, SortItems(ids), now).1)
  {
    hide Kept, Sorted;
    SortedIsKept(rows, ids);
  }

  lemma {:induction false} AddKeeps(rows: Rows, input: ItemInput, id: int, now: int)
    requires Kept(rows) && Possible(rows, AddItem(input, id))
    ensures Kept(Take(rows, AddItem(input, id), now).1)
  {
    var added := Added(rows, NormalizedInput(input), id).items;
    assert Init(added) == rows.items;
    assert FreshIds(rows.items, [id]) ==> forall i :: 0 <= i < |rows.items| ==> rows.items[i].id < [id][0];
  }

  /** Adds that were all let in on the same rows, and are inserted one after the other. */
  function AddedAll(rows: Rows, inputs: seq<ItemInput>, ids: seq<int>): Rows
    requires |ids| == |inputs|
  {
    if inputs == [] then rows
    else Added(AddedAll(rows, Init(inputs), Init(ids)), NormalizedInput(Last(inputs)), Last(ids))
  }

  /**
   The limit is checked before the insert, in a statement of its own. Requests that overlap keep it exactly when
   there was room for all of them.
   */
  lemma {:induction false} OverlappingAddsKeepLimitIff(rows: Rows, inputs: seq<ItemInput>, ids: seq<int>)
    requires |ids| == |inputs|
    ensures |Live(AddedAll(rows, inputs, ids).items)| == |Live(rows.items)| + |inputs|
    ensures |Live(AddedAll(rows, inputs, ids).items)| <= MAX_ITEMS <==> |inputs| <= MAX_ITEMS - |Live(rows.items)|
  {
    if inputs != [] {
      OverlappingAddsKeepLimitIff(rows, Init(inputs), Init(ids));
      var before := AddedAll(rows, Init(inputs), Init(ids));
      assert Init(AddedAll(rows, inputs, ids).items) == before.items;
    }
  }

  lemma {:induction false} ConfigStepKeeps(rows: Rows, step: Step, now: int)
    requires Kept(rows) && (step.GetConfig? || step.Enable? || step.Disable? || step.Attempt?)
    ensures Kept(Take(rows, step, now).1)
  {
  }

  /** New items that leave something to rotate, but not as far as the index. */
  predicate LosesIndex(rows: Rows, items: seq<Item>) {
    0 < |Rotation(rows.(items := items))| <= EnsuredConfig(rows).currentIndex
  }

  /** Exactly the steps that count as a newer version of the configuration. */
  ghost predicate Bumps(rows: Rows, step: Step, now: int)
    requires Possible(rows, step)
  {
    && Take(rows, step, now).0.Ok?
    && match step
       case GetConfig => false
       case AddItem(_, _) => false
       case UpdateItem(id, input, _) =>
         LosesIndex(rows, EditRow(rows.items, id, NormalizedInput(input).content, input.enabled))
       case DeleteItem(id) => LosesIndex(rows, DropRow(rows.items, id))
       case Attempt(_, _) => rows.config.Some? && Due(rows.config.value, now)
       case _ => true
  }

  lemma {:induction false} ActivationBumps(rows: Rows, interval: int, now: int)
    ensures var r := Activated(rows, interval, now);
            r.Ok? ==> r.value.config.Some? && r.value.config.value.version == EnsuredConfig(rows).version + 1
  {
  }

  lemma {:induction false} StepBumpsIff(rows: Rows, step: Step, now: int)
    requires Possible(rows, step)
    ensures EnsuredConfig(rows).version <= EnsuredConfig(Take(rows, step, now).1).version
    ensures EnsuredConfig(rows).version < EnsuredConfig(Take(rows, step, now).1).version <==> Bumps(rows, step, now)
  {
    hide Rotation, SortInputs, SaveInputs, Activated, InputError, ParamsError, Changes, Affects, ListItems, Live,
      DropUnseen;
    if step.Enable? {
      ActivationBumps(rows, step.intervalMinutes, now);
    }
  }

  /**
   Every request and every scheduled attempt keeps the interval in range, a time on every enabled
   configuration, at most 100 live items, and never lowers the version.
   */
  lemma {:induction false} StepKeeps(rows: Rows, step: Step, now: int)
    requires Kept(rows) && Possible(rows, step)
    ensures Kept(Take(rows, step, now).1)
    ensures EnsuredConfig(rows).version <= EnsuredConfig(Take(rows, step, now).1).version
  {
    hide Take, Kept;
    StepBumpsIff(rows, step, now);
    match step {
      case SaveConfig(params, ids) => SaveKeeps(rows, params, ids, now);
      case AddItem(input, id) => AddKeeps(rows, input, id, now);
      case UpdateItem(_, _, _) => ItemStepKeeps(rows, step, now);
      case DeleteItem(_) => ItemStepKeeps(rows, step, now);
      case SortItems(ids) => SortKeeps(rows, ids, now);
      case _ => ConfigStepKeeps(rows, step, now);
    }
  }

  ghost predicate IndexInRange(rows: Rows) {
    && rows.config.Some?
    && (Rotation(rows) == [] || rows.config.value.currentIndex < |Rotation(rows)|)
  }

  /** After a successful update, delete or sort the index is in range, or nothing is enabled. */
  lemma {:induction false} EditsRestoreIndex(rows: Rows, step: Step, now: int)
    requires Possible(rows, step) && (step.UpdateItem? || step.DeleteItem? || step.SortItems?)
    requires Take(rows, step, now).0.Ok?
    ensures IndexInRange(Take(rows, step, now).1)
  {
    hide Rotation, SortInputs;
  }

  // ---------- Versions ----------

  datatype Timed = Timed(step: Step, now: int)

  predicate PossibleRun(rows: Rows, steps: seq<Timed>)
    decreases |steps|
  {
    steps == [] ||
    (Possible(rows, steps[0].step) && PossibleRun(Take(rows, steps[0].step, steps[0].now).1, steps[1..]))
  }

  function AfterSteps(rows: Rows, steps: seq<Timed>): Rows
    requires PossibleRun(rows, steps)
    decreases |steps|
  {
    if steps == [] then rows else AfterSteps(Take(rows, steps[0].step, steps[0].now).1, steps[1..])
  }

  lemma {:induction false} RunKeeps(rows: Rows, steps: seq<Timed>)
    requires Kept(rows) && PossibleRun(rows, steps)
    ensures Kept(AfterSteps(rows, steps))
    ensures EnsuredConfig(rows).version <= EnsuredConfig(AfterSteps(rows, steps)).version
    decreases |steps|
  {
    hide Take, Kept;
    if steps != [] {
      StepKeeps(rows, steps[0].step, steps[0].now);
      RunKeeps(Take(rows, steps[0].step, steps[0].now).1, steps[1..]);
    }
  }

  /** Every configuration reached from nothing is a kept one. */
  lemma {:induction false} ReachableConfigsAreKept(configId: int, steps: seq<Timed>)
    requires PossibleRun(Rows(configId, None, [], []), steps)
    ensures Kept(AfterSteps(Rows(configId, None, [], []), steps))
  {
    RunKeeps(Rows(configId, None, [], []), steps);
  }

  /** The last-send columns of the configuration repeat the last row of its log. */
  ghost predicate SummaryMatches(rows: Rows) {
    rows.logs != [] ==>
      && rows.config.Some?
      && rows.config.value.lastSendAt == Some(Last(rows.logs).sentAt)
      && rows.config.value.lastSendStatus == Last(rows.logs).status
      && rows.config.value.lastErrorCode == Last(rows.logs).errorCode
  }

  lemma {:induction false} AttemptKeepsSummary(rows: Rows, active: bool, now: int, send: Candidate -> SendResult)
    requires SummaryMatches(rows)
    ensures SummaryMatches(Take(rows, Attempt(active, send), now).1)
    ensures rows.logs <= Take(rows, Attempt(active, send), now).1.logs
  {
    hide Rotation, Due;
  }

  lemma {:induction false} StepKeepsSummary(rows: Rows, step: Step, now: int)
    requires SummaryMatches(rows) && Possible(rows, step)
    ensures SummaryMatches(Take(rows, step, now).1)
    ensures rows.logs <= Take(rows, step, now).1.logs
    ensures !step.Attempt? ==> Take(rows, step, now).1.logs == rows.logs
  {
    hide Rotation, SaveInputs, SortInputs, ParamsError, InputError, Changes, Affects, ListItems, Live, DropUnseen;
    if step.Attempt? {
      hide Take;
      AttemptKeepsSummary(rows, step.active, now, step.send);
    }
  }

  /** So they do after every run of requests and attempts, and the log only grows. */
  lemma {:induction false} RunKeepsSummary(rows: Rows, steps: seq<Timed>)
    requires SummaryMatches(rows) && PossibleRun(rows, steps)
    ensures SummaryMatches(AfterSteps(rows, steps)) && rows.logs <= AfterSteps(rows, steps).logs
    decreases |steps|
  {
    hide Take, SummaryMatches;
    if steps != [] {
      StepKeepsSummary(rows, steps[0].step, steps[0].now);
      RunKeepsSummary(Take(rows, steps[0].step, steps[0].now).1, steps[1..]);
    }
  }

  /** Whether some step of a run counts as a newer version. */
  ghost predicate SomeStepBumps(rows: Rows, steps: seq<Timed>)
    requires PossibleRun(rows, steps)
    decreases |steps|
  {
    steps != [] &&
    (Bumps(rows, steps[0].step, steps[0].now)
     || SomeStepBumps(Take(rows, steps[0].step, steps[0].now).1, steps[1..]))
  }

  lemma {:induction false} RunBumpsIff(rows: Rows, steps: seq<Timed>)
    requires PossibleRun(rows, steps)
    ensures EnsuredConfig(rows).version <= EnsuredConfig(AfterSteps(rows, steps)).version
    ensures EnsuredConfig(rows).version < EnsuredConfig(AfterSteps(rows, steps)).version <==> SomeStepBumps(rows, steps)
    decreases |steps|
  {
    hide Take, Bumps, EnsuredConfig;
    if steps != [] {
      StepBumpsIff(rows, steps[0].step, steps[0].now);
      RunBumpsIff(Take(rows, steps[0].step, steps[0].now).1, steps[1..]);
    }
  }

  /**
   Compare and swap: a save with a positive version read earlier is refused as a conflict exactly when
   some save, activation, deactivation, sort, index reset or due attempt came in between.
   */
  lemma {:induction false} StaleSaveConflictsIff(rows: Rows, steps: seq<Timed>, params: SaveParams, now: int,
        ids: seq<int>)
    requires PossibleRun(rows, steps) && |ids| == |params.items|
    requires params.version == EnsuredConfig(rows).version > 0
    ensures Saved(AfterSteps(rows, steps), params, now, ids) == Err(Conflict) <==> SomeStepBumps(rows, steps)
  {
    RunBumpsIff(rows, steps);
  }
}
