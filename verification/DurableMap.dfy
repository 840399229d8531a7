/**
 A map kept in memory and rewritten whole on disk, as its callers see it: a write is done, or
 fails before its rename (disk untouched) or after it (disk already replaced), and then the
 caller rolls its memory back. `AtomicRewrite` shows that its calls leave nothing else.
 */
module DurableMap {
  datatype Fault = NoFault | BeforeRename | AfterRename

  datatype Store<K, V> = Store(mem: map<K, V>, disk: map<K, V>)

  function Write<K, V>(s: Store<K, V>, next: map<K, V>, fault: Fault): Store<K, V> {
    match fault
    case NoFault => Store(next, next)
    case BeforeRename => s
    case AfterRename => Store(s.mem, next)
  }

  function Put<K, V>(s: Store<K, V>, key: K, value: V, fault: Fault): Store<K, V> {
    Write(s, s.mem[key := value], fault)
  }

  function Remove<K, V>(s: Store<K, V>, key: K, fault: Fault): Store<K, V> {
    if key in s.mem then Write(s, s.mem - {key}, fault) else s
  }
}
