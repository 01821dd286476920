/**
 The rows of one group's auto-message configuration, and what each store operation makes of them.
 Times are whole seconds, as the TIMESTAMP columns keep them.
 */
module AutoMessageRows {
  import opened Prelude
  import Decimal

  datatype Item = Item(id: int, sortOrder: int, content: string, enabled: bool, deleted: bool)

  datatype Config = Config(
    enabled: bool,
    intervalMinutes: int,
    currentIndex: int,
    nextSendAt: Option<int>,
    lastSendAt: Option<int>,
    lastSendStatus: string,
    lastErrorCode: string,
    adminsCanManage: bool,
    version: int)

  /** An item id or send index of 0 is stored as NULL. */
  datatype Log = Log(itemId: int, content: string, sendIndex: int, sentAt: int, status: string, errorCode: string)

  /** `configId` is the id the group's configuration row has, or gets when it is first written. */
  datatype Rows = Rows(configId: int, config: Option<Config>, items: seq<Item>, logs: seq<Log>)

  datatype StoreError = ConfigNotFound | ItemNotFound | Conflict

  const SUCCESS := "success"
  const FAILED := "failed"
  const GROUP_DISSOLVED := "AUTO_MESSAGE_GROUP_DISSOLVED"
  const NO_ENABLED_ITEMS := "AUTO_MESSAGE_NO_ENABLED_ITEMS"

  const DEFAULT_CONFIG := Config(false, 30, 0, None, None, "", "", true, 0)

  function EnsuredConfig(rows: Rows): Config {
    if rows.config.Some? then rows.config.value else DEFAULT_CONFIG
  }

  function Ensured(rows: Rows): Rows {
    rows.(config := Some(EnsuredConfig(rows)))
  }

  function Seconds(minutes: int): int {
    60 * minutes
  }

  // ---------- Listing ----------

  /** The listing order: sort order first, then id. */
  predicate Before(a: Item, b: Item) {
    a.sortOrder < b.sortOrder || (a.sortOrder == b.sortOrder && a.id < b.id)
  }

  function Insert(item: Item, ordered: seq<Item>): seq<Item> {
    if ordered == [] then [item]
    else if Before(item, Last(ordered)) then Insert(item, Init(ordered)) + [Last(ordered)]
    else ordered + [item]
  }

  function Ordered(items: seq<Item>): seq<Item> {
    if items == [] then [] else Insert(Last(items), Ordered(Init(items)))
  }

  function Live(items: seq<Item>): seq<Item> {
    if items == [] then []
    else if Last(items).deleted then Live(Init(items))
    else Live(Init(items)) + [Last(items)]
  }

  function Enabled(items: seq<Item>): seq<Item> {
    if items == [] then []
    else if Last(items).enabled then Enabled(Init(items)) + [Last(items)]
    else Enabled(Init(items))
  }

  function ListItems(items: seq<Item>, includeDeleted: bool): seq<Item> {
    Ordered(if includeDeleted then items else Live(items))
  }

  /** The rotation: the enabled live items in listing order. */
  function Rotation(rows: Rows): seq<Item> {
    Enabled(ListItems(rows.items, false))
  }

  predicate Stored(items: seq<Item>, id: int) {
    exists i :: 0 <= i < |items| && items[i].id == id
  }

  /** Readers take an index outside the rotation for 0. */
  function ClampedIndex(index: int, length: nat): int {
    if index < 0 || index >= length then 0 else index
  }

  datatype Detail = Detail(config: Config, items: seq<Item>, enabledItemCount: nat, nextItem: Option<Item>)

  function DetailOf(rows: Rows): Result<Detail, StoreError> {
    if rows.config.None? then Err(ConfigNotFound)
    else
      var rotation := Rotation(rows);
      Ok(Detail(rows.config.value, ListItems(rows.items, false), |rotation|,
                if rotation == [] then None
                else Some(rotation[ClampedIndex(rows.config.value.currentIndex, |rotation|)])))
  }

  // ---------- Row updates ----------

  function SaveRow(items: seq<Item>, id: int, sortOrder: int, content: string, enabled: bool): (r: seq<Item>)
    ensures |r| == |items|
  {
    seq(|items|, i requires 0 <= i < |items| =>
      if items[i].id == id && !items[i].deleted
      then items[i].(sortOrder := sortOrder, content := content, enabled := enabled)
      else items[i])
  }

  function EditRow(items: seq<Item>, id: int, content: string, enabled: bool): (r: seq<Item>)
    ensures |r| == |items|
  {
    seq(|items|, i requires 0 <= i < |items| =>
      if items[i].id == id && !items[i].deleted then items[i].(content := content, enabled := enabled) else items[i])
  }

  function OrderRow(items: seq<Item>, id: int, sortOrder: int): (r: seq<Item>)
    ensures |r| == |items|
  {
    seq(|items|, i requires 0 <= i < |items| =>
      if items[i].id == id && !items[i].deleted then items[i].(sortOrder := sortOrder) else items[i])
  }

  function DropRow(items: seq<Item>, id: int): (r: seq<Item>)
    ensures |r| == |items|
  {
    seq(|items|, i requires 0 <= i < |items| =>
      if items[i].id == id && !items[i].deleted then items[i].(deleted := true) else items[i])
  }

  /** Whether an update or delete finds its row. */
  predicate Affects(items: seq<Item>, id: int) {
    exists i :: 0 <= i < |items| && items[i].id == id && !items[i].deleted
  }

  /**
   Whether an update of one item counts a changed row: the row is live, and the update gives it another
   editor, content or flag. A row that already is as asked is not counted.
   */
  predicate Changes(items: seq<Item>, id: int, content: string, enabled: bool, restamped: bool) {
    exists i :: 0 <= i < |items| && items[i].id == id && !items[i].deleted
                && (restamped || items[i].content != content || items[i].enabled != enabled)
  }

  // ---------- Edits ----------

  datatype ItemInput = ItemInput(id: int, sortOrder: int, content: string, contentType: string, enabled: bool)

  datatype SaveParams = SaveParams(
    enabled: bool, intervalMinutes: int, sendMode: string, firstSendMode: string, adminsCanManage: bool, version: int,
    items: seq<ItemInput>)

  function SortOrderOf(inputs: seq<ItemInput>, i: nat): int
    requires i < |inputs|
  {
    if inputs[i].sortOrder <= 0 then i + 1 else inputs[i].sortOrder
  }

  /** Ids the database hands out: increasing, and beyond every id it handed out before. */
  predicate FreshIds(items: seq<Item>, ids: seq<int>) {
    && (forall i :: 0 <= i < |ids| ==> ids[i] > 0)
    && (forall i, j :: 0 <= i < j < |ids| ==> ids[i] < ids[j])
    && (forall i, j :: 0 <= i < |items| && 0 <= j < |ids| ==> items[i].id < ids[j])
  }

  /** The rows after the inputs from `i` on, with the stored ids they name; None if one names no stored row. */
  function SaveInputs(existing: seq<Item>, inputs: seq<ItemInput>, ids: seq<int>, i: nat, items: seq<Item>,
        seen: set<int>)
    : Option<(seq<Item>, set<int>)>
    requires i <= |inputs| == |ids|
    decreases |inputs| - i
  {
    if i == |inputs| then Some((items, seen))
    else
      var input := inputs[i];
      if input.id > 0 then
        if !Stored(existing, input.id) then None
        else
          SaveInputs(existing, inputs, ids, i + 1,
                     SaveRow(items, input.id, SortOrderOf(inputs, i), input.content, input.enabled), seen + {input.id})
      else
        SaveInputs(existing, inputs, ids, i + 1,
                   items + [Item(ids[i], SortOrderOf(inputs, i), input.content, input.enabled, false)], seen)
  }

  function DropUnseen(existing: seq<Item>, seen: set<int>, items: seq<Item>): seq<Item> {
    if existing == [] then items
    else
      DropUnseen(existing[1..], seen, if existing[0].id in seen then items else DropRow(items, existing[0].id))
  }

  function SavedConfig(config: Config, params: SaveParams, now: int): Config {
    config.(
      enabled := params.enabled,
      intervalMinutes := params.intervalMinutes,
      currentIndex := if params.enabled then 0 else config.currentIndex,
      nextSendAt := if params.enabled then Some(now + Seconds(params.intervalMinutes)) else config.nextSendAt,
      adminsCanManage := params.adminsCanManage,
      version := config.version + 1)
  }

  function Saved(rows: Rows, params: SaveParams, now: int, ids: seq<int>): Result<Rows, StoreError>
    requires |ids| == |params.items|
  {
    var config := EnsuredConfig(rows);
    if params.version > 0 && params.version != config.version then Err(Conflict)
    else
      var existing := ListItems(rows.items, true);
      match SaveInputs(existing, params.items, ids, 0, rows.items, {})
      case None => Err(ItemNotFound)
      case Some((items, seen)) =>
        Ok(rows.(config := Some(SavedConfig(config, params, now)), items := DropUnseen(existing, seen, items)))
  }

  function Activated(rows: Rows, intervalMinutes: int, now: int): Result<Rows, StoreError> {
    var config := EnsuredConfig(rows);
    var interval := if intervalMinutes <= 0 then config.intervalMinutes else intervalMinutes;
    if Rotation(rows) == [] then Err(ItemNotFound)
    else
      Ok(rows.(config := Some(config.(
        enabled := true,
        intervalMinutes := interval,
        currentIndex := 0,
        nextSendAt := Some(now + Seconds(interval)),
        version := config.version + 1))))
  }

  function Disabled(rows: Rows): Rows {
    var config := EnsuredConfig(rows);
    rows.(config := Some(config.(enabled := false, version := config.version + 1)))
  }

  function Added(rows: Rows, input: ItemInput, id: int): Rows {
    var sortOrder := if input.sortOrder <= 0 then |Live(rows.items)| + 1 else input.sortOrder;
    Ensured(rows).(items := rows.items + [Item(id, sortOrder, input.content, input.enabled, false)])
  }

  /** Resets an index beyond the rotation, unless there is nothing to rotate. */
  function Normalized(rows: Rows): Rows
    requires rows.config.Some?
  {
    var config := rows.config.value;
    var count := |Rotation(rows)|;
    if count == 0 || config.currentIndex < count then rows
    else rows.(config := Some(config.(currentIndex := 0, version := config.version + 1)))
  }

  /** A failed edit of one item still leaves the configuration row it created. */
  function Updated(rows: Rows, id: int, input: ItemInput, restamped: bool): (Result<(), StoreError>, Rows) {
    var ensured := Ensured(rows);
    if !Changes(rows.items, id, input.content, input.enabled, restamped) then (Err(ItemNotFound), ensured)
    else (Ok(()), Normalized(ensured.(items := EditRow(rows.items, id, input.content, input.enabled))))
  }

  function Deleted(rows: Rows, id: int): (Result<(), StoreError>, Rows) {
    var ensured := Ensured(rows);
    if !Affects(rows.items, id) then (Err(ItemNotFound), ensured)
    else (Ok(()), Normalized(ensured.(items := DropRow(rows.items, id))))
  }

  /** The rows after the ids from `k` on are given their places; None if an id is unknown or repeated. */
  function SortInputs(existing: seq<Item>, ids: seq<int>, k: nat, items: seq<Item>, seen: set<int>): Option<seq<Item>>
    requires k <= |ids|
    decreases |ids| - k
  {
    if k == |ids| then Some(items)
    else if !Stored(existing, ids[k]) || ids[k] in seen then None
    else SortInputs(existing, ids, k + 1, OrderRow(items, ids[k], k + 1), seen + {ids[k]})
  }

  function Sorted(rows: Rows, ids: seq<int>): (Result<(), StoreError>, Rows) {
    var ensured := Ensured(rows);
    var existing := ListItems(rows.items, true);
    if |ids| != |existing| then (Err(ItemNotFound), ensured)
    else
      match SortInputs(existing, ids, 0, rows.items, {})
      case None => (Err(ItemNotFound), ensured)
      case Some(items) =>
        var config := ensured.config.value;
        (Ok(()), Normalized(ensured.(config := Some(config.(version := config.version + 1)), items := items)))
  }

  // ---------- Scheduled attempts ----------

  datatype SendResult = SendResult(success: bool, errorCode: string)

  /** What a worker is about to send: the item, its place in the rotation, and the slot it is due at. */
  datatype Candidate = Candidate(configId: int, slot: int, index: int, item: Item)

  function BizId(configId: int, slot: int, index: int, itemId: int): string {
    "auto_message:" + Decimal.OfInt(configId) + ":" + Decimal.OfInt(slot) + ":"
    + Decimal.OfInt(index) + ":" + Decimal.OfInt(itemId)
  }

  function BizIdOf(c: Candidate): string {
    BizId(c.configId, c.slot, c.index, c.item.id)
  }

  predicate Due(config: Config, now: int) {
    config.enabled && config.nextSendAt.Some? && config.nextSendAt.value <= now
  }

  predicate CanSend(rows: Rows) {
    rows.config.Some? && rows.config.value.nextSendAt.Some? && Rotation(rows) != []
  }

  function CandidateOf(rows: Rows): Candidate
    requires CanSend(rows)
  {
    var rotation := Rotation(rows);
    var index := ClampedIndex(rows.config.value.currentIndex, |rotation|);
    Candidate(rows.configId, rows.config.value.nextSendAt.value, index, rotation[index])
  }

  /** The branch that finds the group dissolved switches the configuration off. */
  function Dissolved(rows: Rows, now: int): Rows
    requires rows.config.Some?
  {
    var config := rows.config.value;
    rows.(
      config := Some(config.(
        enabled := false, nextSendAt := None, lastSendAt := Some(now), lastSendStatus := FAILED,
        lastErrorCode := GROUP_DISSOLVED, version := config.version + 1)),
      logs := rows.logs + [Log(0, "", 0, now, FAILED, GROUP_DISSOLVED)])
  }

  function NothingToSend(rows: Rows, now: int): Rows
    requires rows.config.Some?
  {
    var config := rows.config.value;
    rows.(
      config := Some(config.(
        nextSendAt := Some(now + Seconds(config.intervalMinutes)), lastSendAt := Some(now), lastSendStatus := FAILED,
        lastErrorCode := NO_ENABLED_ITEMS, version := config.version + 1)),
      logs := rows.logs + [Log(0, "", 0, now, FAILED, NO_ENABLED_ITEMS)])
  }

  /** The commit of an attempt, with the rotation length its transaction read. */
  function Attempted(rows: Rows, c: Candidate, length: nat, now: int, result: SendResult): Rows
    requires rows.config.Some? && length > 0
  {
    var config := rows.config.value;
    var status := if result.success then SUCCESS else FAILED;
    rows.(
      config := Some(config.(
        currentIndex := if result.success then (c.index + 1) % length else c.index,
        nextSendAt := Some(now + Seconds(config.intervalMinutes)), lastSendAt := Some(now), lastSendStatus := status,
        lastErrorCode := result.errorCode, version := config.version + 1)),
      logs := rows.logs + [Log(c.item.id, c.item.content, c.index + 1, now, status, result.errorCode)])
  }

  function Processed(rows: Rows, active: bool, now: int, send: Candidate -> SendResult): Result<Rows, StoreError> {
    if rows.config.None? then Err(ConfigNotFound)
    else if !Due(rows.config.value, now) then Ok(rows)
    else if !active then Ok(Dissolved(rows, now))
    else if Rotation(rows) == [] then Ok(NothingToSend(rows, now))
    else
      var c := CandidateOf(rows);
      Ok(Attempted(rows, c, |Rotation(rows)|, now, send(c)))
  }
}
