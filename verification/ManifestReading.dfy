/** Which JSON values are read as a manifest, and as which one. */
module ManifestReading {
  import opened Wrappers
  import opened Manifests
  import opened CheckpointRetention

  /** The object has at least these fields. */
  predicate HasFields(o: Json, fields: map<string, Json>) {
    o.Object? && forall k :: k in fields ==> k in o.fields && o.fields[k] == fields[k]
  }

  lemma ScopeTexts(text: string, s: Scope)
    ensures ScopeOf(text) == Some(s) <==> text == ScopeText(s)
    ensures ScopeText(Exclusive) == "exclusive" && ScopeText(Shared) == "shared" && ScopeText(TaskOwned) == "taskowned"
  {
  }

  lemma TextFieldIff(o: Json, name: string, s: string)
    ensures TextField(o, name) == Some(s) <==> o.Object? && name in o.fields && o.fields[name] == Text(s)
  {
  }

  lemma IntFieldIff(o: Json, name: string, n: int)
    ensures IntField(o, name) == Some(n) <==> o.Object? && name in o.fields && o.fields[name] == Int(n)
  {
  }

  /** An entry is read from an object exactly when it is valid and the object has the fields it is written with. */
  lemma EntryReadIff(o: Json, e: Entry)
    ensures ParseEntry(o) == Some(e) <==> ValidEntry(e) && HasFields(o, EntryJson(e).fields)
  {
    hide ValidEntry, ScopeOf;
    var fields := EntryJson(e).fields;
    assert HasFields(o, fields) <==>
      TextField(o, "job_id") == Some(e.partition.jobId) && TextField(o, "operator_id") == Some(e.partition.operatorId)
      && IntField(o, "key_group") == Some(e.partition.keyGroup) && IntField(o, "version") == Some(e.version)
      && IntField(o, "input_sequence") == Some(e.inputSequence) && TextField(o, "uri") == Some(e.uri)
      && TextField(o, "checksum") == Some(e.checksum) && IntField(o, "size_bytes") == Some(e.sizeBytes)
      && TextField(o, "scope") == Some(ScopeText(e.scope)) by {
      EntryFields(o, e);
    }
    if TextField(o, "scope").Some? {
      ScopeTexts(TextField(o, "scope").value, e.scope);
    }
  }

  lemma EntryKeys(e: Entry)
    ensures var fields := EntryJson(e).fields;
      && EntryJson(e).Object? && fields.Keys == {
           "job_id", "operator_id", "key_group", "version", "input_sequence", "uri", "checksum", "size_bytes", "scope"}
      && fields["job_id"] == Text(e.partition.jobId) && fields["operator_id"] == Text(e.partition.operatorId)
      && fields["key_group"] == Int(e.partition.keyGroup) && fields["version"] == Int(e.version)
      && fields["input_sequence"] == Int(e.inputSequence) && fields["uri"] == Text(e.uri)
      && fields["checksum"] == Text(e.checksum) && fields["size_bytes"] == Int(e.sizeBytes)
      && fields["scope"] == Text(ScopeText(e.scope))
  {
    hide ScopeText;
  }

  lemma EntryFields(o: Json, e: Entry)
    ensures HasFields(o, EntryJson(e).fields) <==>
      TextField(o, "job_id") == Some(e.partition.jobId) && TextField(o, "operator_id") == Some(e.partition.operatorId)
      && IntField(o, "key_group") == Some(e.partition.keyGroup) && IntField(o, "version") == Some(e.version)
      && IntField(o, "input_sequence") == Some(e.inputSequence) && TextField(o, "uri") == Some(e.uri)
      && TextField(o, "checksum") == Some(e.checksum) && IntField(o, "size_bytes") == Some(e.sizeBytes)
      && TextField(o, "scope") == Some(ScopeText(e.scope))
  {
    hide ScopeText, EntryJson, TextField, IntField;
    EntryKeys(e);
    TextFieldIff(o, "job_id", e.partition.jobId);
    TextFieldIff(o, "operator_id", e.partition.operatorId);
    IntFieldIff(o, "key_group", e.partition.keyGroup);
    IntFieldIff(o, "version", e.version);
    IntFieldIff(o, "input_sequence", e.inputSequence);
    TextFieldIff(o, "uri", e.uri);
    TextFieldIff(o, "checksum", e.checksum);
    IntFieldIff(o, "size_bytes", e.sizeBytes);
    TextFieldIff(o, "scope", ScopeText(e.scope));
    var keys := EntryJson(e).fields.Keys;
    assert HasFields(o, EntryJson(e).fields) <==>
      o.Object? && forall k :: k in keys ==> k in o.fields && o.fields[k] == EntryJson(e).fields[k];
  }

  ghost predicate EntriesRead(items: seq<Json>, entries: seq<Entry>) {
    && |items| == |entries|
    && forall i :: 0 <= i < |items| ==> ParseEntry(items[i]) == Some(entries[i])
  }

  lemma {:induction false} EntriesReadIff(items: seq<Json>, entries: seq<Entry>)
    ensures ParseEntries(items) == Some(entries) <==> EntriesRead(items, entries)
  {
    hide ParseEntry;
    if items != [] {
      var last := |items| - 1;
      if entries == [] {
        LastRead(items);
      } else {
        EntriesReadIff(items[..last], entries[..|entries| - 1]);
        LastRead(items);
        assert entries == entries[..|entries| - 1] + [entries[|entries| - 1]];
        EntriesReadStep(items, entries);
        if ParseEntries(items) == Some(entries) {
          assert ParseEntries(items[..last]).value == entries[..|entries| - 1];
        }
      }
    }
  }

  lemma LastRead(items: seq<Json>)
    requires items != []
    ensures var last := |items| - 1; var before := ParseEntries(items[..last]);
      && (ParseEntries(items).Some? <==> before.Some? && ParseEntry(items[last]).Some?)
      && (ParseEntries(items).Some? ==> ParseEntries(items).value == before.value + [ParseEntry(items[last]).value])
  {
    hide ParseEntry;
  }

  lemma EntriesReadStep(items: seq<Json>, entries: seq<Entry>)
    requires items != [] && entries != []
    ensures EntriesRead(items, entries) <==>
      EntriesRead(items[..|items| - 1], entries[..|entries| - 1])
      && ParseEntry(items[|items| - 1]) == Some(entries[|entries| - 1])
  {
    hide ParseEntry;
    var init, last := items[..|items| - 1], |items| - 1;
    if EntriesRead(init, entries[..|entries| - 1]) && ParseEntry(items[last]) == Some(entries[|entries| - 1]) {
      forall i | 0 <= i < |items| ensures ParseEntry(items[i]) == Some(entries[i]) {
        if i < last {
          assert ParseEntry(init[i]) == Some(entries[..|entries| - 1][i]);
        }
      }
    }
  }

  /** Positions are absent, or the very object that they are written as, with ascending names. */
  ghost predicate PositionsRead(o: Json, name: string, pairs: seq<(string, string)>) {
    o.Object?
    && if name in o.fields then o.fields[name] == PositionsJson(pairs) && NamesAscend(pairs) else pairs == []
  }

  lemma PositionsReadIff(o: Json, name: string, pairs: seq<(string, string)>)
    ensures ParsePositions(o, name) == Some(pairs) <==> PositionsRead(o, name, pairs)
  {
    hide SortedItems, Dict, NamesAscend;
    if o.Object? && name in o.fields && o.fields[name].Object? {
      var fields := o.fields[name].fields;
      if forall k :: k in fields ==> fields[k].Text? {
        var d := map k | k in fields :: fields[k].s;
        ItemsAscend(d);
        ItemsOfDict(SortedItems(d));
        SameDict(Dict(SortedItems(d)), d);
        ItemsOfDict(pairs);
        if o.fields[name] == PositionsJson(pairs) && NamesAscend(pairs) {
          assert Dict(pairs) == d;
        }
        if pairs == SortedItems(d) {
          assert PositionsJson(pairs).fields == fields;
        }
      }
    }
  }

  /**
    A manifest is read from a JSON value exactly when it is valid, the value has its fields, its entries can be
    read one by one, and its positions are there with ascending names, or absent and empty.
   */
  lemma ManifestReadIff(o: Json, m: Manifest)
    ensures FromDict(o) == Some(m) <==>
      && ValidManifest(m)
      && HasFields(o, map[
           "job_id" := Text(m.jobId), "checkpoint_id" := Int(m.checkpointId), "epoch" := Int(m.epoch)])
      && "entries" in o.fields && o.fields["entries"].List? && EntriesRead(o.fields["entries"].items, m.entries)
      && PositionsRead(o, "source_positions", m.sourcePositions)
      && PositionsRead(o, "sink_transactions", m.sinkTransactions)
  {
    hide ParseEntries, EntriesRead, ParsePositions, PositionsRead, ValidManifest;
    var fields := map["job_id" := Text(m.jobId), "checkpoint_id" := Int(m.checkpointId), "epoch" := Int(m.epoch)];
    if o.Object? && "entries" in o.fields && o.fields["entries"].List? {
      EntriesReadIff(o.fields["entries"].items, m.entries);
      PositionsReadIff(o, "source_positions", m.sourcePositions);
      PositionsReadIff(o, "sink_transactions", m.sinkTransactions);
      TextFieldIff(o, "job_id", m.jobId);
      IntFieldIff(o, "checkpoint_id", m.checkpointId);
      IntFieldIff(o, "epoch", m.epoch);
      ThreeFields(o, m, fields);
    }
  }

  lemma ThreeFields(o: Json, m: Manifest, fields: map<string, Json>)
    requires fields == map["job_id" := Text(m.jobId), "checkpoint_id" := Int(m.checkpointId), "epoch" := Int(m.epoch)]
    ensures HasFields(o, fields) <==>
      TextField(o, "job_id") == Some(m.jobId) && IntField(o, "checkpoint_id") == Some(m.checkpointId)
      && IntField(o, "epoch") == Some(m.epoch)
  {
    if HasFields(o, fields) {
      assert "job_id" in fields && "checkpoint_id" in fields && "epoch" in fields;
    }
  }
}
