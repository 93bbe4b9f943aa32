/** The gold files and the scripts that rewrite them in place. Each script either replaces
    the files with its specified result or raises and leaves them untouched. */
module GoldFiles {
  import opened Rubric
  import opened Sequencing
  import opened Gold

  class Files {
    var clean: seq<Record>
    var records: seq<Record>
    var key: seq<KeyRecord>

    ghost function Contents(): Store
      reads this
    {
      Store(clean, Hard(records, key))
    }

    /** What a script that may raise promises: the new contents, or an error and no change. */
    ghost predicate Replaced(before: Store, outcome: Result<Store>, error: Option<Error>)
      reads this
    {
      match outcome
      case Ok(s) => error == None && Contents() == s
      case Err(e) => error == Some(e) && Contents() == before
    }

    method Ratify(expansion: seq<Record>, stress: map<Id, Stress>) returns (error: Option<Error>)
      modifies this`records, this`key
      ensures Replaced(old(Contents()),
                WithHard(old(Contents()), RatifyOf(Hard(old(records), old(key)), expansion, stress)), error)
    {
      hide RatifyOne;
      hide KeyValid;
      ghost var start := Contents();
      var step := Ratifier(RecordIds(records), stress);
      var appended: seq<KeyRecord> := [];
      for i := 0 to |expansion|
        invariant Contents() == start
        invariant MapAll(expansion[..i], step) == Ok(appended)
      {
        MapAllStep(expansion, i, step);
        var entry := step(expansion[i]);
        if entry.Err? {
          MapAllError(expansion, i + 1, step, entry.error);
          return Some(entry.error);
        }
        appended := appended + [entry.value];
      }
      assert expansion[..|expansion|] == expansion;
      var combined, combinedKey := records + expansion, key + appended;
      var errors := HardKeyErrors(combined, combinedKey);
      if errors != [] { return Some(ValueError); }
      records, key := combined, combinedKey;
      return None;
    }

    method Relabel(packet: seq<PacketRow>) returns (error: Option<Error>)
      modifies this`records, this`key
      ensures Replaced(old(Contents()), WithHard(old(Contents()), RelabelOf(Hard(old(records), old(key)), packet)),
                error)
    {
      hide RelabelAt;
      hide KeyValid;
      ghost var start := Contents();
      var h := Hard(records, key);
      if !PacketOk(h, packet) { return Some(ValueError); }
      var rows := Numbered(packet);
      var current := h;
      for i := 0 to |rows|
        invariant Contents() == start
        invariant FoldAll(h, rows[..i], RelabelAt) == Ok(current)
      {
        FoldAllStep(h, rows, i, RelabelAt);
        var next := RelabelAt(current, rows[i]);
        if next.Err? {
          FoldAllError(h, rows, i + 1, RelabelAt, next.error);
          return Some(next.error);
        }
        current := next.value;
      }
      assert rows[..|rows|] == rows;
      var errors := HardKeyErrors(current.records, current.key);
      if errors != [] { return Some(ValueError); }
      records, key := current.records, current.key;
      return None;
    }

    method Review(cards: seq<Card>) returns (error: Option<Error>)
      modifies this`clean, this`key
      ensures Replaced(old(Contents()), ReviewOf(old(Contents()), cards), error)
    {
      hide ReviewCard;
      hide Approve;
      ghost var start := Contents();
      if exists i | 0 <= i < |cards| :: !OnScale(cards[i].score) { return Some(ValueError); }
      var current := Store(clean, Hard(records, key));
      for i := 0 to |cards|
        invariant Contents() == start
        invariant FoldAll(start, cards[..i], ReviewCard) == Ok(current)
        invariant current.hard.records == start.hard.records
      {
        FoldAllStep(start, cards, i, ReviewCard);
        ReviewKeepsRecords(current, cards[i]);
        var next := ReviewCard(current, cards[i]);
        if next.Err? {
          FoldAllError(start, cards, i + 1, ReviewCard, next.error);
          return Some(next.error);
        }
        current := next.value;
      }
      assert cards[..|cards|] == cards;
      var approved: seq<Record> := [];
      for i := 0 to |current.clean|
        invariant Contents() == start
        invariant MapAll(current.clean[..i], Approve) == Ok(approved)
      {
        MapAllStep(current.clean, i, Approve);
        var entry := Approve(current.clean[i]);
        if entry.Err? {
          MapAllError(current.clean, i + 1, Approve, entry.error);
          return Some(entry.error);
        }
        approved := approved + [entry.value];
      }
      assert current.clean[..|current.clean|] == current.clean;
      clean, key := approved, current.hard.key;
      return None;
    }

    method Rescore() returns (error: Option<Error>)
      modifies this`clean, this`key
      ensures Replaced(old(Contents()), RescoreOf(old(Contents())), error)
    {
      hide RescoreRecord;
      hide RescoreKey;
      ghost var start := Contents();
      var items, sources, entries := clean, records, key;
      var rescored: seq<Record> := [];
      for i := 0 to |items|
        invariant Contents() == start
        invariant MapAll(items[..i], RescoreRecord) == Ok(rescored)
      {
        MapAllStep(items, i, RescoreRecord);
        var entry := RescoreRecord(items[i]);
        if entry.Err? {
          MapAllError(items, i + 1, RescoreRecord, entry.error);
          return Some(entry.error);
        }
        rescored := rescored + [entry.value];
      }
      assert items[..|items|] == items;
      var step := KeyRescorer(sources);
      var keys: seq<KeyRecord> := [];
      for i := 0 to |entries|
        invariant Contents() == start
        invariant MapAll(entries[..i], step) == Ok(keys)
      {
        MapAllStep(entries, i, step);
        var entry := step(entries[i]);
        if entry.Err? {
          MapAllError(entries, i + 1, step, entry.error);
          return Some(entry.error);
        }
        keys := keys + [entry.value];
      }
      assert entries[..|entries|] == entries;
      clean, key := rescored, keys;
      return None;
    }
  }

  /** A result about the hard layer, seen as one about the whole store. */
  function WithHard(s: Store, outcome: Result<Hard>): Result<Store> {
    match outcome case Ok(h) => Ok(s.(hard := h)) case Err(e) => Err(e)
  }

  lemma ReviewKeepsRecords(s: Store, c: Card)
    ensures ReviewCard(s, c).Ok? ==> ReviewCard(s, c).value.hard.records == s.hard.records
  {
  }
}
