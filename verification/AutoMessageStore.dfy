/** The store operations of auto messages, as they run against one group's rows. */
module AutoMessageStore {
  import opened Prelude
  import opened AutoMessageRows

  // ---------- Loops over items ----------

  method EnabledItems(items: seq<Item>) returns (out: seq<Item>)
    ensures out == Enabled(items)
  {
    out := [];
    for i := 0 to |items|
      invariant out == Enabled(items[..i])
    {
      assert Init(items[..i + 1]) == items[..i];
      if items[i].enabled {
        out := out + [items[i]];
      }
    }
    assert items[..|items|] == items;
  }

  method CountEnabledItems(items: seq<Item>) returns (count: nat)
    ensures count == |Enabled(items)|
  {
    count := 0;
    for i := 0 to |items|
      invariant count == |Enabled(items[..i])|
    {
      assert Init(items[..i + 1]) == items[..i];
      if items[i].enabled {
        count := count + 1;
      }
    }
    assert items[..|items|] == items;
  }

  method ItemBelongsTo(items: seq<Item>, id: int) returns (found: bool)
    ensures found <==> Stored(items, id)
  {
    for i := 0 to |items|
      invariant !Stored(items[..i], id)
    {
      if items[i].id == id {
        return true;
      }
      assert items[..i + 1] == items[..i] + [items[i]];
    }
    assert items[..|items|] == items;
    return false;
  }

  // ---------- One group's rows ----------

  class GroupRows {
    const configId: int
    var config: Option<Config>
    var items: seq<Item>
    var logs: seq<Log>

    function Contents(): Rows
      reads this
    {
      Rows(configId, config, items, logs)
    }

    constructor (configId: int)
      ensures Contents() == Rows(configId, None, [], [])
    {
      this.configId := configId;
      config := None;
      items, logs := [], [];
    }

    method Detail() returns (r: Result<Detail, StoreError>)
      ensures r == DetailOf(Contents())
    {
      if config.None? {
        return Err(ConfigNotFound);
      }
      var listed := ListItems(items, false);
      var count := CountEnabledItems(listed);
      var nextItem := None;
      if count > 0 {
        var enabled := EnabledItems(listed);
        var index := config.value.currentIndex;
        if index < 0 || index >= |enabled| {
          index := 0;
        }
        nextItem := Some(enabled[index]);
      }
      return Ok(AutoMessageRows.Detail(config.value, listed, count, nextItem));
    }

    /** Creates the configuration row unless it is there. */
    method Ensure()
      modifies this`config
      ensures Contents() == Ensured(old(Contents()))
    {
      if config.None? {
        config := Some(DEFAULT_CONFIG);
      }
    }

    /** One transaction: the rows change together at the end, or not at all. */
    method Save(params: SaveParams, now: int, ids: seq<int>) returns (r: Result<(), StoreError>)
      requires |ids| == |params.items|
      modifies this
      ensures match Saved(old(Contents()), params, now, ids)
              case Err(e) => r == Err(e) && Contents() == old(Contents())
              case Ok(rows) => r == Ok(()) && Contents() == rows
    {
      var cfg := if config.Some? then config.value else DEFAULT_CONFIG;
      if params.version > 0 && params.version != cfg.version {
        return Err(Conflict);
      }
      var existing := ListItems(items, true);
      var written, seen := items, {};
      for i := 0 to |params.items|
        invariant SaveInputs(existing, params.items, ids, i, written, seen)
               == SaveInputs(existing, params.items, ids, 0, items, {})
        invariant unchanged(this)
      {
        var input := params.items[i];
        var sortOrder := if input.sortOrder <= 0 then i + 1 else input.sortOrder;
        if input.id > 0 {
          var found := ItemBelongsTo(existing, input.id);
          if !found {
            return Err(ItemNotFound);
          }
          written := SaveRow(written, input.id, sortOrder, input.content, input.enabled);
          seen := seen + {input.id};
        } else {
          written := written + [Item(ids[i], sortOrder, input.content, input.enabled, false)];
        }
      }
      ghost var saved := written;
      for i := 0 to |existing|
        invariant DropUnseen(existing[i..], seen, written) == DropUnseen(existing, seen, saved)
        invariant unchanged(this)
      {
        assert existing[i..][1..] == existing[i + 1..];
        if existing[i].id !in seen {
          written := DropRow(written, existing[i].id);
        }
      }
      var nextSendAt := cfg.nextSendAt;
      var currentIndex := cfg.currentIndex;
      if params.enabled {
        currentIndex := 0;
        nextSendAt := Some(now + 60 * params.intervalMinutes);
      }
      config := Some(cfg.(enabled := params.enabled, intervalMinutes := params.intervalMinutes,
                          currentIndex := currentIndex, nextSendAt := nextSendAt,
                          adminsCanManage := params.adminsCanManage, version := cfg.version + 1));
      items := written;
      return Ok(());
    }

    method Enable(intervalMinutes: int, now: int) returns (r: Result<(), StoreError>)
      modifies this`config
      ensures match Activated(old(Contents()), intervalMinutes, now)
              case Err(e) => r == Err(e) && Contents() == old(Contents())
              case Ok(rows) => r == Ok(()) && Contents() == rows
    {
      var cfg := if config.Some? then config.value else DEFAULT_CONFIG;
      var interval := if intervalMinutes <= 0 then cfg.intervalMinutes else intervalMinutes;
      var count := CountEnabledItems(ListItems(items, false));
      if count == 0 {
        return Err(ItemNotFound);
      }
      config := Some(cfg.(enabled := true, intervalMinutes := interval, currentIndex := 0,
                          nextSendAt := Some(now + 60 * interval), version := cfg.version + 1));
      return Ok(());
    }

    method Disable()
      modifies this`config
      ensures Contents() == Disabled(old(Contents()))
    {
      Ensure();
      config := Some(config.value.(enabled := false, version := config.value.version + 1));
    }

    method AddItem(input: ItemInput, id: int)
      modifies this`config, this`items
      ensures Contents() == Added(old(Contents()), input, id)
    {
      Ensure();
      var sortOrder := input.sortOrder;
      if sortOrder <= 0 {
        sortOrder := |Live(items)| + 1;
      }
      items := items + [Item(id, sortOrder, input.content, input.enabled, false)];
    }

    method NormalizeCurrentIndex()
      requires config.Some?
      modifies this`config
      ensures Contents() == Normalized(old(Contents()))
    {
      var count := CountEnabledItems(ListItems(items, false));
      if count == 0 || config.value.currentIndex < count {
        return;
      }
      config := Some(config.value.(currentIndex := 0, version := config.value.version + 1));
    }

    /** `restamped` says whether the row's last editor is somebody else. */
    method UpdateItem(id: int, input: ItemInput, restamped: bool) returns (r: Result<(), StoreError>)
      modifies this`config, this`items
      ensures (r, Contents()) == Updated(old(Contents()), id, input, restamped)
    {
      Ensure();
      if !Changes(items, id, input.content, input.enabled, restamped) {
        return Err(ItemNotFound);
      }
      items := EditRow(items, id, input.content, input.enabled);
      NormalizeCurrentIndex();
      return Ok(());
    }

    method DeleteItem(id: int) returns (r: Result<(), StoreError>)
      modifies this`config, this`items
      ensures (r, Contents()) == Deleted(old(Contents()), id)
    {
      Ensure();
      if !Affects(items, id) {
        return Err(ItemNotFound);
      }
      items := DropRow(items, id);
      NormalizeCurrentIndex();
      return Ok(());
    }

    method SortItems(ids: seq<int>) returns (r: Result<(), StoreError>)
      modifies this`config, this`items
      ensures (r, Contents()) == Sorted(old(Contents()), ids)
    {
      Ensure();
      var existing := ListItems(items, true);
      if |ids| != |existing| {
        return Err(ItemNotFound);
      }
      var written, seen := items, {};
      for k := 0 to |ids|
        invariant SortInputs(existing, ids, k, written, seen) == SortInputs(existing, ids, 0, items, {})
        invariant Contents() == Ensured(old(Contents()))
      {
        var found := ItemBelongsTo(existing, ids[k]);
        if !found || ids[k] in seen {
          return Err(ItemNotFound);
        }
        seen := seen + {ids[k]};
        written := OrderRow(written, ids[k], k + 1);
      }
      items := written;
      config := Some(config.value.(version := config.value.version + 1));
      NormalizeCurrentIndex();
      return Ok(());
    }

    /** One scheduled attempt, from the recheck under the row lock to the commit. */
    method ProcessDue(active: bool, now: int, send: Candidate -> SendResult) returns (r: Result<(), StoreError>)
      modifies this`config, this`logs
      ensures match Processed(old(Contents()), active, now, send)
              case Err(e) => r == Err(e) && Contents() == old(Contents())
              case Ok(rows) => r == Ok(()) && Contents() == rows
    {
      if config.None? {
        return Err(ConfigNotFound);
      }
      var cfg := config.value;
      if !cfg.enabled || cfg.nextSendAt == None || cfg.nextSendAt.value > now {
        return Ok(());
      }
      if !active {
        logs := logs + [Log(0, "", 0, now, FAILED, GROUP_DISSOLVED)];
        config := Some(cfg.(enabled := false, nextSendAt := None, lastSendAt := Some(now), lastSendStatus := FAILED,
                            lastErrorCode := GROUP_DISSOLVED, version := cfg.version + 1));
        return Ok(());
      }
      var enabled := EnabledItems(ListItems(items, false));
      assert enabled == Rotation(old(Contents()));
      hide Rotation, Enabled, ListItems;
      if |enabled| == 0 {
        logs := logs + [Log(0, "", 0, now, FAILED, NO_ENABLED_ITEMS)];
        config := Some(cfg.(nextSendAt := Some(now + 60 * cfg.intervalMinutes), lastSendAt := Some(now),
                            lastSendStatus := FAILED, lastErrorCode := NO_ENABLED_ITEMS, version := cfg.version + 1));
        return Ok(());
      }
      var currentIndex := cfg.currentIndex;
      if currentIndex < 0 || currentIndex >= |enabled| {
        currentIndex := 0;
      }
      var item := enabled[currentIndex];
      var result := send(Candidate(configId, cfg.nextSendAt.value, currentIndex, item));
      var status := if result.success then SUCCESS else FAILED;
      logs := logs + [Log(item.id, item.content, currentIndex + 1, now, status, result.errorCode)];
      var nextIndex := if result.success then (currentIndex + 1) % |enabled| else currentIndex;
      config := Some(cfg.(currentIndex := nextIndex, nextSendAt := Some(now + 60 * cfg.intervalMinutes),
                          lastSendAt := Some(now), lastSendStatus := status, lastErrorCode := result.errorCode,
                          version := cfg.version + 1));
      return Ok(());
    }
  }
}
