/** The checkpoint manifest and its JSON form (state_checkpoint_manifest.py, state_checkpoint_entry.py). */
module Manifests {
  import opened Wrappers
  import opened Bytes
  import opened Sorting
  import opened Texts

  type Positive = n: int | n > 0 witness 1

  /** A binary float; a finite one is the ratio it denotes, in any terms. */
  datatype Float = Finite(numerator: int, denominator: Positive) | Infinite | NotANumber

  /** A value that `json.loads` can return. */
  datatype Json =
    | Null
    | Bool(b: bool)
    | Int(n: int)
    | Real(x: Float)
    | Text(s: string)
    | List(items: seq<Json>)
    | Object(fields: map<string, Json>)

  /** A value without floats, such as everything the store writes. */
  predicate Exact(j: Json) {
    match j
    case Real(_) => false
    case List(items) => forall i :: 0 <= i < |items| ==> Exact(items[i])
    case Object(fields) => forall k :: k in fields ==> Exact(fields[k])
    case _ => true
  }

  datatype Scope = Exclusive | Shared | TaskOwned

  datatype StatePartition = StatePartition(jobId: string, operatorId: string, keyGroup: int)

  datatype Entry = Entry(
    partition: StatePartition, version: int, inputSequence: int,
    uri: string, checksum: string, sizeBytes: int, scope: Scope)

  datatype Manifest = Manifest(
    jobId: string, checkpointId: int, epoch: int, entries: seq<Entry>,
    sourcePositions: seq<(string, string)>, sinkTransactions: seq<(string, string)>)

  /** The checks of `StatePartition.__post_init__` and `StateCheckpointEntry.__post_init__`. */
  predicate ValidEntry(e: Entry) {
    && e.partition.jobId != "" && e.partition.operatorId != "" && e.partition.keyGroup >= 0
    && e.version >= 1 && e.inputSequence >= 0 && e.uri != "" && e.checksum != "" && e.sizeBytes >= 0
  }

  /** The checks of `StateCheckpointManifest.__post_init__`, for entries that exist. */
  predicate ValidManifest(m: Manifest) {
    && m.jobId != "" && m.checkpointId >= 0 && m.epoch >= 0
    && forall i :: 0 <= i < |m.entries| ==> ValidEntry(m.entries[i]) && m.entries[i].partition.jobId == m.jobId
  }

  // ---- positions: tuples of pairs, stored as a JSON object -----------------

  /** `dict(pairs)`: the last pair of a name wins. */
  function Dict(pairs: seq<(string, string)>): map<string, string> {
    if pairs == [] then
      map[]
    else
      var last := |pairs| - 1;
      Dict(pairs[..last])[pairs[last].0 := pairs[last].1]
  }

  function Names(d: map<string, string>): (names: seq<string>)
    ensures IsOrdering(names, d.Keys, Rank)
  {
    RanksInjective();
    OrderedIsOrdering(d.Keys, Rank);
    Ordered(d.Keys, Rank)
  }

  /** `tuple(sorted(d.items()))`. */
  function SortedItems(d: map<string, string>): seq<(string, string)> {
    var names := Names(d);
    seq(|names|, i requires 0 <= i < |names| => assert names[i] in names; (names[i], d[names[i]]))
  }

  ghost predicate NamesAscend(pairs: seq<(string, string)>) {
    forall i, j :: 0 <= i < j < |pairs| ==> Less(Rank(pairs[i].0), Rank(pairs[j].0))
  }

  ghost predicate HasName(pairs: seq<(string, string)>, name: string) {
    exists i :: 0 <= i < |pairs| && pairs[i].0 == name
  }

  lemma {:induction false} DictNames(pairs: seq<(string, string)>, name: string)
    ensures name in Dict(pairs) <==> HasName(pairs, name)
  {
    if pairs != [] {
      var last := |pairs| - 1;
      var init := pairs[..last];
      DictNames(init, name);
      if HasName(init, name) {
        var i :| 0 <= i < last && init[i].0 == name;
        assert pairs[i].0 == name;
      }
      if HasName(pairs, name) && pairs[last].0 != name {
        var i :| 0 <= i < |pairs| && pairs[i].0 == name;
        assert init[i].0 == name;
      }
    }
  }

  lemma {:induction false} DictLookup(pairs: seq<(string, string)>, i: nat)
    requires NamesAscend(pairs) && i < |pairs|
    ensures pairs[i].0 in Dict(pairs) && Dict(pairs)[pairs[i].0] == pairs[i].1
  {
    hide Less, Rank;
    var last := |pairs| - 1;
    if i < last {
      DictLookup(pairs[..last], i);
      LessIrreflexive(Rank(pairs[i].0));
      assert Less(Rank(pairs[i].0), Rank(pairs[last].0));
    }
  }

  /** Positions come back as they were exactly when their names ascend strictly. */
  lemma ItemsOfDict(pairs: seq<(string, string)>)
    ensures SortedItems(Dict(pairs)) == pairs <==> NamesAscend(pairs)
  {
    hide SortedItems, Dict, Less, Rank;
    var d := Dict(pairs);
    var items := SortedItems(d);
    ItemsAscend(d);
    if NamesAscend(pairs) {
      var firsts := seq(|pairs|, i requires 0 <= i < |pairs| => pairs[i].0);
      forall i | 0 <= i < |pairs| ensures firsts[i] in d && d[firsts[i]] == pairs[i].1 {
        DictLookup(pairs, i);
      }
      forall k | k in d ensures k in firsts {
        DictNames(pairs, k);
        var i :| 0 <= i < |pairs| && pairs[i].0 == k;
        assert firsts[i] == k;
      }
      OrderingUnique(firsts, Names(d), d.Keys, Rank);
      forall i | 0 <= i < |pairs| ensures items[i] == pairs[i] {
        assert Names(d)[i] == firsts[i];
      }
    }
  }

  lemma ItemsAscend(d: map<string, string>)
    ensures NamesAscend(SortedItems(d))
    ensures |SortedItems(d)| == |Names(d)|
    ensures forall i :: 0 <= i < |Names(d)| ==>
      Names(d)[i] in d && SortedItems(d)[i] == (Names(d)[i], d[Names(d)[i]])
  {
    forall i | 0 <= i < |Names(d)| ensures Names(d)[i] in d { assert Names(d)[i] in Names(d); }
  }

  // ---- to_dict and from_dict -----------------------------------------------

  function ScopeText(s: Scope): string {
    match s
    case Exclusive => "exclusive"
    case Shared => "shared"
    case TaskOwned => "taskowned"
  }

  function EntryJson(e: Entry): Json {
    Object(map[
      "job_id" := Text(e.partition.jobId), "operator_id" := Text(e.partition.operatorId),
      "key_group" := Int(e.partition.keyGroup), "version" := Int(e.version),
      "input_sequence" := Int(e.inputSequence), "uri" := Text(e.uri),
      "checksum" := Text(e.checksum), "size_bytes" := Int(e.sizeBytes), "scope" := Text(ScopeText(e.scope))])
  }

  function PositionsJson(pairs: seq<(string, string)>): Json {
    Object(map k | k in Dict(pairs) :: Text(Dict(pairs)[k]))
  }

  function ToDict(m: Manifest): Json {
    Object(map[
      "job_id" := Text(m.jobId), "checkpoint_id" := Int(m.checkpointId), "epoch" := Int(m.epoch),
      "entries" := List(seq(|m.entries|, i requires 0 <= i < |m.entries| => EntryJson(m.entries[i]))),
      "source_positions" := PositionsJson(m.sourcePositions),
      "sink_transactions" := PositionsJson(m.sinkTransactions)])
  }

  lemma ToDictExact(m: Manifest)
    ensures Exact(ToDict(m))
  {
    forall i | 0 <= i < |m.entries| ensures Exact(EntryJson(m.entries[i])) {
    }
  }

  function TextField(o: Json, name: string): Option<string> {
    if o.Object? && name in o.fields && o.fields[name].Text? then Some(o.fields[name].s) else None
  }

  function IntField(o: Json, name: string): Option<int> {
    if o.Object? && name in o.fields && o.fields[name].Int? then Some(o.fields[name].n) else None
  }

  function ScopeOf(text: string): Option<Scope> {
    if text == "exclusive" then Some(Exclusive)
    else if text == "shared" then Some(Shared)
    else if text == "taskowned" then Some(TaskOwned)
    else None
  }

  /** One entry of `from_dict`; `None` stands for KeyError, TypeError or ValueError. */
  function ParseEntry(o: Json): Option<Entry> {
    match (TextField(o, "job_id"), TextField(o, "operator_id"), IntField(o, "key_group"))
    case (Some(job), Some(operator), Some(group)) => (
      match (IntField(o, "version"), IntField(o, "input_sequence"), TextField(o, "uri"))
      case (Some(version), Some(sequence), Some(uri)) => (
        match (TextField(o, "checksum"), IntField(o, "size_bytes"), TextField(o, "scope"))
        case (Some(checksum), Some(size), Some(scope)) => (
          match ScopeOf(scope)
          case None => None
          case Some(s) =>
            var e := Entry(StatePartition(job, operator, group), version, sequence, uri, checksum, size, s);
            if ValidEntry(e) then Some(e) else None
        )
        case _ => None
      )
      case _ => None
    )
    case _ => None
  }

  function ParseEntries(items: seq<Json>): Option<seq<Entry>> {
    if items == [] then
      Some([])
    else
      var last := |items| - 1;
      match (ParseEntries(items[..last]), ParseEntry(items[last]))
      case (Some(before), Some(e)) => Some(before + [e])
      case _ => None
  }

  function ParsePositions(o: Json, name: string): Option<seq<(string, string)>> {
    if !o.Object? then None
    else if name !in o.fields then Some([])
    else if !o.fields[name].Object? then None
    else
      var fields := o.fields[name].fields;
      if forall k :: k in fields ==> fields[k].Text? then
        Some(SortedItems(map k | k in fields :: fields[k].s))
      else
        None
  }

  function FromDict(o: Json): Option<Manifest> {
    if !(o.Object? && "entries" in o.fields && o.fields["entries"].List?) then
      None
    else
      match (ParseEntries(o.fields["entries"].items), TextField(o, "job_id"), IntField(o, "checkpoint_id"))
      case (Some(entries), Some(job), Some(id)) => (
        match (IntField(o, "epoch"), ParsePositions(o, "source_positions"), ParsePositions(o, "sink_transactions"))
        case (Some(epoch), Some(sources), Some(sinks)) =>
          var m := Manifest(job, id, epoch, entries, sources, sinks);
          if ValidManifest(m) then Some(m) else None
        case _ => None
      )
      case _ => None
  }

  lemma EntryRoundTrip(e: Entry)
    requires ValidEntry(e)
    ensures ParseEntry(EntryJson(e)) == Some(e)
  {
    var o := EntryJson(e);
    assert TextField(o, "job_id") == Some(e.partition.jobId);
    assert TextField(o, "operator_id") == Some(e.partition.operatorId);
    assert IntField(o, "key_group") == Some(e.partition.keyGroup) && IntField(o, "version") == Some(e.version);
    assert IntField(o, "input_sequence") == Some(e.inputSequence) && TextField(o, "uri") == Some(e.uri);
    assert TextField(o, "checksum") == Some(e.checksum) && IntField(o, "size_bytes") == Some(e.sizeBytes);
    assert TextField(o, "scope") == Some(ScopeText(e.scope));
    assert ScopeOf(ScopeText(e.scope)) == Some(e.scope);
  }

  function EntriesJson(entries: seq<Entry>): seq<Json> {
    seq(|entries|, i requires 0 <= i < |entries| => EntryJson(entries[i]))
  }

  lemma {:induction false} EntriesRoundTrip(entries: seq<Entry>)
    requires forall i :: 0 <= i < |entries| ==> ValidEntry(entries[i])
    ensures ParseEntries(EntriesJson(entries)) == Some(entries)
  {
    hide ParseEntry, EntryJson, ValidEntry;
    if entries != [] {
      var last := |entries| - 1;
      EntriesRoundTrip(entries[..last]);
      EntryRoundTrip(entries[last]);
      assert EntriesJson(entries)[..last] == EntriesJson(entries[..last]);
      assert entries == entries[..last] + [entries[last]];
    }
  }

  /** What a stored manifest is read back as. */
  function Stored(m: Manifest): Manifest {
    m.(sourcePositions := SortedItems(Dict(m.sourcePositions)),
       sinkTransactions := SortedItems(Dict(m.sinkTransactions)))
  }

  lemma PositionsParsed(o: Json, name: string, pairs: seq<(string, string)>)
    requires o.Object? && name in o.fields && o.fields[name] == PositionsJson(pairs)
    ensures ParsePositions(o, name) == Some(SortedItems(Dict(pairs)))
  {
    hide SortedItems, Dict;
    var fields := o.fields[name].fields;
    assert (map k | k in fields :: if fields[k].Text? then fields[k].s else "") == Dict(pairs);
    assert (map k | k in fields :: fields[k].s) == Dict(pairs);
  }

  /**
    Reading a written manifest yields it with its positions as sorted dictionaries;
    it is the very same manifest exactly when both position lists ascend.
   */
  lemma ManifestRoundTrip(m: Manifest)
    requires ValidManifest(m)
    ensures FromDict(ToDict(m)) == Some(Stored(m))
    ensures Stored(m) == m <==> NamesAscend(m.sourcePositions) && NamesAscend(m.sinkTransactions)
  {
    hide ParseEntries, EntryJson, ParsePositions, PositionsJson, SortedItems, Dict, NamesAscend, ValidEntry;
    var o := ToDict(m);
    EntriesRoundTrip(m.entries);
    assert o.fields["entries"].items == EntriesJson(m.entries);
    PositionsParsed(o, "source_positions", m.sourcePositions);
    PositionsParsed(o, "sink_transactions", m.sinkTransactions);
    assert TextField(o, "job_id") == Some(m.jobId);
    assert IntField(o, "checkpoint_id") == Some(m.checkpointId) && IntField(o, "epoch") == Some(m.epoch);
    ItemsOfDict(m.sourcePositions);
    ItemsOfDict(m.sinkTransactions);
  }
}
