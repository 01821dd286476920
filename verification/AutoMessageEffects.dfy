/**
 What each request and each attempt makes of the configuration, the items and the log, in terms of when the
 configuration is due, what the listing shows and what was logged.
 */
module AutoMessageEffects {
  import opened Prelude
  import opened GoStrings
  import Decimal
  import opened AutoMessageRows
  import opened AutoMessageListing
  import opened AutoMessageEdits
  import opened AutoMessageRotation
  import opened AutoMessageService

  // ---------- Frames ----------

  /** Neither the items nor the log differ. */
  predicate SameRecords(rows: Rows, after: Rows) {
    after.configId == rows.configId && after.items == rows.items && after.logs == rows.logs
  }

  /** The last-send columns are as they were. */
  predicate SameSummary(before: Config, after: Config) {
    && after.lastSendAt == before.lastSendAt
    && after.lastSendStatus == before.lastSendStatus
    && after.lastErrorCode == before.lastErrorCode
  }

  /** Whether, how often and when to send, who may manage, and what was sent last are as they were. */
  predicate SameSchedule(before: Config, after: Config) {
    && after.enabled == before.enabled
    && after.intervalMinutes == before.intervalMinutes
    && after.nextSendAt == before.nextSendAt
    && after.adminsCanManage == before.adminsCanManage
    && SameSummary(before, after)
  }

  /** An index beyond `n` items to rotate goes back to 0, which raises the version once more than the edit itself. */
  predicate Resets(before: Config, after: Config, n: nat, raised: nat) {
    var beyond := 0 < n <= before.currentIndex;
    && after.currentIndex == (if beyond then 0 else before.currentIndex)
    && after.version == before.version + raised + (if beyond then 1 else 0)
  }

  // ---------- Switching on and off ----------

  /** The first read of a group's configuration creates one that is off: 30 minutes, administrators may manage. */
  lemma {:induction false} FirstReadIsOff(rows: Rows, now: int, t: int)
    requires rows.config == None
    ensures var (answer, after) := Take(rows, GetConfig, now);
            && answer == Ok(()) && SameRecords(rows, after) && after.config.Some?
            && !Due(after.config.value, t)
            && after.config.value.intervalMinutes == 30 && after.config.value.adminsCanManage
            && after.config.value.currentIndex == 0 && after.config.value.version == 0
            && after.config.value.lastSendAt == None && after.config.value.lastSendStatus == ""
            && after.config.value.lastErrorCode == ""
  {
  }

  /** A later read changes nothing. */
  lemma {:induction false} ReadsChangeNothing(rows: Rows, now: int)
    requires rows.config.Some?
    ensures Take(rows, GetConfig, now) == (Ok(()), rows)
  {
  }

  /**
   A committed save decides whether the configuration is due: one that enables makes it due from one interval on, one
   that does not switches it off. It takes the interval and the permission it is given, and leaves the index and the
   time alone unless it enables.
   */
  lemma {:induction false} SaveSwitches(rows: Rows, params: SaveParams, now: int, ids: seq<int>, t: int)
    requires |ids| == |params.items| && Saved(rows, params, now, ids).Ok?
    ensures var before, after := EnsuredConfig(rows), Saved(rows, params, now, ids).value;
            && after.configId == rows.configId && after.logs == rows.logs && after.config.Some?
            && var config := after.config.value;
               && (Due(config, t) <==> params.enabled && now + 60 * params.intervalMinutes <= t)
               && config.enabled == params.enabled
               && config.intervalMinutes == params.intervalMinutes
               && config.adminsCanManage == params.adminsCanManage
               && (params.enabled ==> config.currentIndex == 0)
               && (!params.enabled ==>
                     config.currentIndex == before.currentIndex && config.nextSendAt == before.nextSendAt)
               && SameSummary(before, config) && config.version == before.version + 1
  {
    hide SaveInputs, DropUnseen, ListItems;
  }

  /** An activation makes the configuration due from one interval on, and changes nothing it does not have to. */
  lemma {:induction false} ActivationSwitchesOn(rows: Rows, interval: int, now: int, t: int)
    requires Activated(rows, interval, now).Ok?
    ensures var before, after := EnsuredConfig(rows), Activated(rows, interval, now).value;
            && SameRecords(rows, after) && after.config.Some?
            && var config := after.config.value;
               && config.intervalMinutes == (if interval <= 0 then before.intervalMinutes else interval)
               && (Due(config, t) <==> now + 60 * config.intervalMinutes <= t)
               && config.currentIndex == 0 && config.adminsCanManage == before.adminsCanManage
               && SameSummary(before, config) && config.version == before.version + 1
  {
    hide Rotation;
  }

  /** After a deactivation the configuration is never due, and nothing else about it is lost. */
  lemma {:induction false} DeactivationSwitchesOff(rows: Rows, t: int)
    ensures var before, after := EnsuredConfig(rows), Disabled(rows);
            && SameRecords(rows, after) && after.config.Some?
            && var config := after.config.value;
               && !Due(config, t)
               && config.currentIndex == before.currentIndex && config.intervalMinutes == before.intervalMinutes
               && config.nextSendAt == before.nextSendAt && config.adminsCanManage == before.adminsCanManage
               && SameSummary(before, config) && config.version == before.version + 1
  {
  }

  // ---------- Items ----------

  /** An added item is live under its id with the text and flag given; nothing but a first configuration changes. */
  lemma {:induction false} AddedIsLive(rows: Rows, input: ItemInput, id: int, x: Item)
    ensures var after := Added(rows, input, id);
            && after.configId == rows.configId && after.logs == rows.logs
            && after.config == Some(EnsuredConfig(rows))
            && (x in after.items && !x.deleted <==>
                  || (x in rows.items && !x.deleted)
                  || (&& x.id == id && x.content == input.content && x.enabled == input.enabled && !x.deleted
                      && x.sortOrder == (if input.sortOrder > 0 then input.sortOrder else |Live(rows.items)| + 1)))
  {
    hide Live;
  }

  /** An update touches the live row of its id only, and of that row only the text and the flag. */
  lemma {:induction false} UpdateTouchesOneRow(rows: Rows, id: int, input: ItemInput, restamped: bool)
    requires Updated(rows, id, input, restamped).0.Ok?
    ensures var after := Updated(rows, id, input, restamped).1;
            && after.configId == rows.configId && after.logs == rows.logs && after.config.Some?
            && SameSchedule(EnsuredConfig(rows), after.config.value)
            && Resets(EnsuredConfig(rows), after.config.value, |Rotation(after)|, 0)
            && |after.items| == |rows.items|
            && Affects(rows.items, id)
            && forall i :: 0 <= i < |rows.items| ==>
                 && after.items[i].id == rows.items[i].id
                 && after.items[i].sortOrder == rows.items[i].sortOrder
                 && after.items[i].deleted == rows.items[i].deleted
                 && (if rows.items[i].id == id && !rows.items[i].deleted
                     then after.items[i].content == input.content && after.items[i].enabled == input.enabled
                     else after.items[i] == rows.items[i])
  {
    hide ListItems, Enabled;
  }

  /** A deletion marks the live row of its id and leaves the others. */
  lemma {:induction false} DeleteMarksOneRow(rows: Rows, id: int)
    requires Deleted(rows, id).0.Ok?
    ensures var after := Deleted(rows, id).1;
            && after.configId == rows.configId && after.logs == rows.logs && after.config.Some?
            && SameSchedule(EnsuredConfig(rows), after.config.value)
            && Resets(EnsuredConfig(rows), after.config.value, |Rotation(after)|, 0)
            && |after.items| == |rows.items|
            && Affects(rows.items, id)
            && forall i :: 0 <= i < |rows.items| ==>
                 if rows.items[i].id == id
                 then after.items[i].deleted && after.items[i].(deleted := rows.items[i].deleted) == rows.items[i]
                 else after.items[i] == rows.items[i]
  {
    hide ListItems, Enabled;
  }

  /** A sort changes places only. */
  lemma {:induction false} SortChangesPlacesOnly(rows: Rows, ids: seq<int>)
    requires DistinctIds(rows.items) && Sorted(rows, ids).0.Ok?
    ensures var after := Sorted(rows, ids).1;
            && after.configId == rows.configId && after.logs == rows.logs && after.config.Some?
            && SameSchedule(EnsuredConfig(rows), after.config.value)
            && Resets(EnsuredConfig(rows), after.config.value, |Rotation(after)|, 1)
            && |after.items| == |rows.items|
            && forall i :: 0 <= i < |rows.items| ==>
                 after.items[i].(sortOrder := rows.items[i].sortOrder) == rows.items[i]
  {
    SortRuns(rows, ids);
    hide Rotation, Placed, SortInputs, ListItems, DistinctIds, NoDuplicates, Stored;
  }

  /** A request that edits an item and fails changes nothing but a first configuration. */
  lemma {:induction false} FailedEditsChangeNothing(rows: Rows, step: Step, now: int)
    requires step.UpdateItem? || step.DeleteItem? || step.SortItems?
    requires Take(rows, step, now).0.Err?
    ensures Take(rows, step, now).1 == rows || Take(rows, step, now).1 == Ensured(rows)
  {
    hide Rotation, SortInputs, ListItems, InputError, Changes, Affects;
  }

  // ---------- What is shown ----------

  /** The detail shows the stored configuration, the live items in order, and how many of them are enabled. */
  lemma {:induction false} DetailShows(rows: Rows, x: Item)
    requires rows.config.Some? && DistinctIds(rows.items)
    ensures var detail := DetailOf(rows);
            && detail.Ok? && detail.value.config == rows.config.value
            && StrictlyOrdered(detail.value.items)
            && (x in detail.value.items <==> x in rows.items && !x.deleted)
            && detail.value.enabledItemCount == |Rotation(rows)|
            && (detail.value.nextItem == None <==> detail.value.enabledItemCount == 0)
  {
    ListingIsStrict(rows.items, false);
    OrderedKeepsItems(Live(rows.items));
    LiveKeepsLiveItems(rows.items);
    hide Live, Ordered, Enabled, StrictlyOrdered, DistinctIds;
  }

  /** The item that is next stands at the stored index, or first if the index is out of range. */
  lemma {:induction false} NextStandsAtIndex(rows: Rows)
    requires CanSend(rows)
    ensures var c, index := CandidateOf(rows), rows.config.value.currentIndex;
            && c.configId == rows.configId && Some(c.slot) == rows.config.value.nextSendAt
            && c.item == Rotation(rows)[c.index]
            && (if 0 <= index < |Rotation(rows)| then c.index == index else c.index == 0)
  {
    hide Rotation;
  }

  /** The business id of what is sent next is the text of its configuration, slot, index and item, in this order. */
  lemma {:induction false} IdIsText(rows: Rows)
    requires CanSend(rows)
    ensures var c := CandidateOf(rows);
            BizIdOf(c) == "auto_message:" + Decimal.OfInt(rows.configId)
                          + ":" + Decimal.OfInt(rows.config.value.nextSendAt.value)
                          + ":" + Decimal.OfInt(c.index) + ":" + Decimal.OfInt(Rotation(rows)[c.index].id)
  {
    hide Rotation, Decimal.OfInt;
  }

  // ---------- Attempts ----------

  /** What every logged attempt leaves: one log row more, which the last-send columns repeat, and the same items. */
  predicate Logs(rows: Rows, after: Rows, log: Log) {
    && after.configId == rows.configId && after.items == rows.items && after.logs == rows.logs + [log]
    && rows.config.Some? && after.config.Some?
    && after.config.value.lastSendAt == Some(log.sentAt)
    && after.config.value.lastSendStatus == log.status
    && after.config.value.lastErrorCode == log.errorCode
    && after.config.value.version == rows.config.value.version + 1
    && after.config.value.intervalMinutes == rows.config.value.intervalMinutes
    && after.config.value.adminsCanManage == rows.config.value.adminsCanManage
  }

  /** An attempt that is not due changes nothing. */
  lemma {:induction false} IdleAttemptChangesNothing(rows: Rows, active: bool, now: int, send: Candidate -> SendResult)
    requires rows.config.Some? && !Due(rows.config.value, now)
    ensures Processed(rows, active, now, send) == Ok(rows)
  {
  }

  /** An attempt for a dissolved group sends nothing, logs why, and switches the configuration off for good. */
  lemma {:induction false} DissolvedAttempt(rows: Rows, now: int, send: Candidate -> SendResult, t: int)
    requires rows.config.Some? && Due(rows.config.value, now)
    ensures var r := Processed(rows, false, now, send);
            && r.Ok?
            && Logs(rows, r.value, Log(0, "", 0, now, "failed", "AUTO_MESSAGE_GROUP_DISSOLVED"))
            && !Due(r.value.config.value, t) && !r.value.config.value.enabled
            && r.value.config.value.nextSendAt == None
            && r.value.config.value.currentIndex == rows.config.value.currentIndex
  {
  }

  /** An attempt without an enabled item sends nothing, logs why, and is due again one interval later. */
  lemma {:induction false} EmptyAttempt(rows: Rows, now: int, send: Candidate -> SendResult, t: int)
    requires rows.config.Some? && Due(rows.config.value, now) && Rotation(rows) == []
    ensures var r := Processed(rows, true, now, send);
            && r.Ok?
            && Logs(rows, r.value, Log(0, "", 0, now, "failed", "AUTO_MESSAGE_NO_ENABLED_ITEMS"))
            && (Due(r.value.config.value, t) <==> now + 60 * rows.config.value.intervalMinutes <= t)
            && r.value.config.value.currentIndex == rows.config.value.currentIndex
  {
    hide Rotation;
  }

  /**
   Any other attempt sends the next item, logs its text, its place and the answer, error code included, and is due
   again one interval later: at the next place after a success, at the same one after a failure.
   */
  lemma {:induction false} SendingAttempt(rows: Rows, now: int, send: Candidate -> SendResult, t: int)
    requires rows.config.Some? && Due(rows.config.value, now) && Rotation(rows) != []
    ensures var r, c := Processed(rows, true, now, send), CandidateOf(rows);
            var result, n := send(c), |Rotation(rows)|;
            && r.Ok?
            && Logs(rows, r.value, Log(c.item.id, c.item.content, c.index + 1, now,
                                       if result.success then "success" else "failed", result.errorCode))
            && (Due(r.value.config.value, t) <==> now + 60 * rows.config.value.intervalMinutes <= t)
            && 0 <= c.index < n
            && r.value.config.value.currentIndex
            == (if !result.success then c.index else if c.index + 1 == n then 0 else c.index + 1)
  {
    hide Rotation;
    NextIndex(ClampedIndex(rows.config.value.currentIndex, |Rotation(rows)|), |Rotation(rows)|);
  }

  // ---------- Answers ----------

  /** The surrounding space of a text goes, and nothing else. */
  lemma {:induction false} TrimmedText(input: ItemInput)
    ensures var text := NormalizedInput(input).content;
            && Trimmed(text)
            && exists i, j :: 0 <= i <= j <= |input.content| && text == input.content[i..j]
                              && (forall k :: 0 <= k < i || j <= k < |input.content| ==> IsSpace(input.content[k]))
    ensures NormalizedInput(input).id == input.id && NormalizedInput(input).enabled == input.enabled
    ensures NormalizedInput(input).sortOrder == input.sortOrder
  {
    TrimSpaceTrims(input.content);
    var i, j := TrimSpaceCuts(input.content);
    hide TrimSpace;
  }

  /** An item is accepted exactly with 1 to 1000 characters of text and no other content type than text. */
  lemma {:induction false} ItemIsAcceptedIff(input: ItemInput)
    ensures InputError(input) == None
       <==> 1 <= |TrimSpace(input.content)| <= 1000 && TrimSpace(input.contentType) in ["", "text"]
  {
    hide TrimSpace;
  }

  lemma {:induction false} NoErrorIff(inputs: seq<ItemInput>)
    ensures FirstInputError(inputs) == None
       <==> forall i :: 0 <= i < |inputs| ==> InputError(inputs[i]) == None
  {
    hide InputError;
    if inputs != [] {
      NoErrorIff(Init(inputs));
      assert forall i :: 0 <= i < |inputs| - 1 ==> Init(inputs)[i] == inputs[i];
      assert Last(inputs) == inputs[|inputs| - 1];
    }
  }

  /** A configuration is accepted exactly within these bounds. */
  lemma {:induction false} ConfigIsAcceptedIff(params: SaveParams)
    ensures ParamsError(params) == None
       <==> && 5 <= params.intervalMinutes <= 1440
            && params.sendMode in ["", "sequence"] && params.firstSendMode in ["", "delay"]
            && |params.items| <= 100
            && (forall i :: 0 <= i < |params.items| ==> InputError(params.items[i]) == None)
            && (params.enabled ==> exists i :: 0 <= i < |params.items| && params.items[i].enabled)
  {
    NoErrorIff(params.items);
    hide InputError, FirstInputError;
  }

  lemma {:induction false} SameIds(inputs: seq<ItemInput>, items: seq<Item>)
    ensures NamesDistinctLiveRows(items, NormalizedInputs(inputs)) <==> NamesDistinctLiveRows(items, inputs)
    ensures (forall i :: 0 <= i < |inputs| && inputs[i].id > 0 ==> Stored(items, inputs[i].id))
       <==> (forall i :: 0 <= i < |NormalizedInputs(inputs)| && NormalizedInputs(inputs)[i].id > 0 ==>
               Stored(items, NormalizedInputs(inputs)[i].id))
  {
    var normalized := NormalizedInputs(inputs);
    assert forall i :: 0 <= i < |inputs| ==> normalized[i].id == inputs[i].id;
    hide NormalizedInputs, Stored, Affects;
  }

  /**
   A save request is carried out exactly if it is accepted, its version is absent or current, and every id it gives is
   stored; otherwise nothing changes. If its ids name different live rows, the listing then shows its texts without
   surrounding space.
   */
  lemma {:induction false} SaveRequest(rows: Rows, params: SaveParams, ids: seq<int>, now: int)
    requires Possible(rows, SaveConfig(params, ids)) && DistinctIds(rows.items)
    ensures var (answer, after) := Take(rows, SaveConfig(params, ids), now);
            && (answer.Ok? <==>
                  && ParamsError(params) == None
                  && (params.version <= 0 || params.version == EnsuredConfig(rows).version)
                  && (forall i :: 0 <= i < |params.items| && params.items[i].id > 0 ==>
                        Stored(rows.items, params.items[i].id)))
            && (answer.Err? ==> after == rows)
            && (answer.Ok? && NamesDistinctLiveRows(rows.items, params.items) ==>
                  ListItems(after.items, false) == Ordered(Resolved(NormalizedInputs(params.items), ids)))
  {
    var normalized := NormalizedParams(params);
    SaveCommitsIff(rows, normalized, now, ids);
    SameIds(params.items, rows.items);
    hide Saved, ParamsError, ListItems, Ordered, Resolved, Stored, NamesDistinctLiveRows, DistinctIds, FreshIds;
    if Saved(rows, normalized, now, ids).Ok? && NamesDistinctLiveRows(rows.items, params.items) {
      SaveReplacesList(rows, normalized, now, ids);
    }
  }

  /** What a resolved input becomes: its text without surrounding space, its flag, and its place. */
  lemma {:induction false} ResolvedInputShows(inputs: seq<ItemInput>, ids: seq<int>, i: nat)
    requires |ids| == |inputs| && i < |inputs|
    ensures |Resolved(NormalizedInputs(inputs), ids)| == |inputs|
    ensures var item := Resolved(NormalizedInputs(inputs), ids)[i];
            && item.id == (if inputs[i].id > 0 then inputs[i].id else ids[i])
            && item.content == TrimSpace(inputs[i].content) && item.enabled == inputs[i].enabled && !item.deleted
            && item.sortOrder == (if inputs[i].sortOrder > 0 then inputs[i].sortOrder else i + 1)
            && NormalizedInputs(inputs)[i].sortOrder == item.sortOrder
  {
    hide TrimSpace;
  }

  /** An add request is carried out exactly while there is room and the item is accepted. */
  lemma {:induction false} AddRequest(rows: Rows, input: ItemInput, id: int, now: int)
    requires Possible(rows, AddItem(input, id))
    ensures var (answer, after) := Take(rows, AddItem(input, id), now);
            && (answer.Ok? <==> |Live(rows.items)| < 100 && InputError(input) == None)
            && (answer.Err? ==> after == rows)
            && (answer.Ok? ==>
                  && after.items[..|rows.items|] == rows.items && |after.items| == |rows.items| + 1
                  && Last(after.items).id == id && Last(after.items).enabled == input.enabled
                  && Last(after.items).content == TrimSpace(input.content) && !Last(after.items).deleted)
  {
    hide TrimSpace, Live, InputError;
  }

  /** An update request is carried out exactly if the item is accepted and some live row of the id changes by it. */
  lemma {:induction false} UpdateRequest(rows: Rows, id: int, input: ItemInput, restamped: bool, now: int, i: nat)
    requires i < |rows.items|
    ensures var (answer, after) := Take(rows, UpdateItem(id, input, restamped), now);
            && (answer.Ok? <==>
                  && InputError(input) == None
                  && exists j :: 0 <= j < |rows.items| && rows.items[j].id == id && !rows.items[j].deleted
                                 && (restamped || rows.items[j].content != TrimSpace(input.content)
                                     || rows.items[j].enabled != input.enabled))
            && (answer.Ok? && rows.items[i].id == id && !rows.items[i].deleted ==>
                  && |after.items| == |rows.items|
                  && after.items[i].content == TrimSpace(input.content) && after.items[i].enabled == input.enabled)
  {
    hide TrimSpace, InputError, Rotation;
  }

  /** A delete request is carried out exactly if the id has a live row. */
  lemma {:induction false} DeleteRequest(rows: Rows, id: int, now: int)
    ensures Take(rows, DeleteItem(id), now).0.Ok?
       <==> exists j :: 0 <= j < |rows.items| && rows.items[j].id == id && !rows.items[j].deleted
  {
    hide Rotation;
  }

  /** A sort request is carried out exactly on the permutations of all stored ids, unless there are none. */
  lemma {:induction false} SortRequest(rows: Rows, ids: seq<int>, now: int)
    requires DistinctIds(rows.items)
    ensures Take(rows, SortItems(ids), now).0.Ok? <==> ids != [] && multiset(ids) == multiset(IdsOf(rows.items))
    ensures Take(rows, SortItems(ids), now).0.Ok? ==> Take(rows, SortItems(ids), now).1 == Sorted(rows, ids).1
  {
    SortAcceptsExactlyPermutations(rows, ids);
    hide Sorted, DistinctIds, IdsOf;
  }

  /** An activation is carried out exactly with an interval in range, or none, and something to rotate. */
  lemma {:induction false} EnableRequest(rows: Rows, interval: int, now: int)
    ensures var (answer, after) := Take(rows, Enable(interval), now);
            && (answer == Err(InvalidInterval) <==> interval > 0 && !(5 <= interval <= 1440))
            && (answer == Err(NoEnabledItems) <==> (interval <= 0 || 5 <= interval <= 1440) && Rotation(rows) == [])
            && (answer.Err? ==> after == rows)
            && (answer.Ok? ==> Activated(rows, interval, now) == Ok(after))
  {
    hide Rotation;
  }

  /** A deactivation is always carried out. */
  lemma {:induction false} DisableRequest(rows: Rows, now: int)
    ensures Take(rows, Disable, now) == (Ok(()), Disabled(rows))
  {
  }
}
