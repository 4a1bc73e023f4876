/** The two backend classes perform the operations whose runs `BackendLaws` compares. */
module BackendConformance {
  import opened Wrappers
  import opened KeyCodec
  import opened KeyedState
  import opened MemoryBackend
  import opened RocksDbBackend
  import opened BackendLaws

  function ResponseOf<K>(error: Option<BackendError>): Response<K> {
    if error.None? then Done else Failed(error.value)
  }

  method PerformOnMemory<K(!new)>(b: MemoryStateBackend<K>, op: Operation<K>) returns (response: Response<K>)
    requires b.Valid()
    modifies b
    ensures b.Valid()
    ensures (Store(b.currentKey, b.model), response)
         == Step(b.codec, false, old(Store(b.currentKey, b.model)), op)
  {
    hide Lawful, Fired, Events, WithoutTimers, AfterCleanup, CleanupCount, AfterGet, Visible, Put, Delete, Namespaces;
    match op
    case SelectKey(key) =>
      b.SetCurrentKey(key);
      response := Done;
    case Read(d, namespace, now, renewal) =>
      var r := b.Get(d, namespace, now, renewal);
      response := if r.Ok? then Value(r.value) else Failed(r.error);
    case Write(d, payload, namespace, now) =>
      var error := b.Put(d, payload, namespace, now);
      response := ResponseOf(error);
    case Remove(d, namespace) =>
      var error := b.Delete(d, namespace);
      response := ResponseOf(error);
    case ListNamespaces(d) =>
      var r := b.Namespaces(d);
      response := if r.Ok? then Listed(r.value) else Failed(r.error);
    case AddTimer(timestamp, namespace, domain) =>
      var error := b.RegisterTimer(timestamp, namespace, domain);
      response := ResponseOf(error);
    case DropTimer(timestamp, namespace, domain) =>
      var error := b.DeleteTimer(timestamp, namespace, domain);
      response := ResponseOf(error);
    case PopTimers(timestamp, domain, limit) =>
      var events := b.PopDueTimers(timestamp, domain, limit);
      response := Popped(events);
    case Cleanup(now, limit) =>
      var removed := b.CleanupExpired(now, limit);
      response := Removed(removed);
  }

  method PerformOnRocksDb<K(!new)>(b: RocksDbStateBackend<K>, op: Operation<K>) returns (response: Response<K>)
    requires b.Valid()
    modifies b
    ensures b.Valid()
    ensures (Store(b.currentKey, b.model), response)
         == Step(b.codec, true, old(Store(b.currentKey, b.model)), op)
  {
    hide Lawful, Fired, Events, WithoutTimers, AfterCleanup, CleanupCount, AfterGet, Visible, Put, Delete, Namespaces;
    match op
    case SelectKey(key) =>
      b.SetCurrentKey(key);
      response := Done;
    case Read(d, namespace, now, renewal) =>
      var r := b.Get(d, namespace, now, renewal);
      response := if r.Ok? then Value(r.value) else Failed(r.error);
    case Write(d, payload, namespace, now) =>
      var error := b.Put(d, payload, namespace, now);
      response := ResponseOf(error);
    case Remove(d, namespace) =>
      var error := b.Delete(d, namespace);
      response := ResponseOf(error);
    case ListNamespaces(d) =>
      var r := b.Namespaces(d);
      response := if r.Ok? then Listed(r.value) else Failed(r.error);
    case AddTimer(timestamp, namespace, domain) =>
      var error := b.RegisterTimer(timestamp, namespace, domain);
      response := ResponseOf(error);
    case DropTimer(timestamp, namespace, domain) =>
      var error := b.DeleteTimer(timestamp, namespace, domain);
      response := ResponseOf(error);
    case PopTimers(timestamp, domain, limit) =>
      var events := b.PopDueTimers(timestamp, domain, limit);
      response := Popped(events);
    case Cleanup(now, limit) =>
      var removed := b.CleanupExpired(now, limit);
      response := Removed(removed);
  }
}
