/** Runs of writes to a durable map: what memory and the disk hold after any failures. */
module DurableRuns {
  import opened DurableMap

  datatype Op<K, V> = Putting(key: K, value: V, fault: Fault) | Removing(key: K, fault: Fault)

  function Apply<K, V>(s: Store<K, V>, op: Op<K, V>): Store<K, V> {
    match op
    case Putting(key, value, fault) => Put(s, key, value, fault)
    case Removing(key, fault) => Remove(s, key, fault)
  }

  /** The map an operation would write. */
  function Next<K, V>(m: map<K, V>, op: Op<K, V>): map<K, V> {
    match op
    case Putting(key, value, _) => m[key := value]
    case Removing(key, _) => m - {key}
  }

  function Run<K, V>(s: Store<K, V>, ops: seq<Op<K, V>>): Store<K, V> {
    if ops == [] then s else Apply(Run(s, ops[..|ops| - 1]), ops[|ops| - 1])
  }

  /** Memory parts from the disk exactly on a failure after the rename of a write that changed something. */
  lemma PartsExactlyAfterRename<K, V>(s: Store<K, V>, op: Op<K, V>)
    requires s.mem == s.disk
    ensures var t := Apply(s, op);
            t.mem == t.disk <==> !(op.fault.AfterRename? && Next(s.mem, op) != s.mem)
  {
    if op.Removing? && op.key !in s.mem {
      assert Next(s.mem, op) == s.mem;
    }
  }

  lemma {:induction false} MemoryFollowsDisk<K, V>(s: Store<K, V>, ops: seq<Op<K, V>>)
    requires s.mem == s.disk && forall i :: 0 <= i < |ops| ==> !ops[i].fault.AfterRename?
    ensures Run(s, ops).mem == Run(s, ops).disk
  {
    if ops != [] {
      MemoryFollowsDisk(s, ops[..|ops| - 1]);
      PartsExactlyAfterRename(Run(s, ops[..|ops| - 1]), ops[|ops| - 1]);
    }
  }

  /** Whatever fails, the disk is the first state or one complete state some operation meant to write. */
  lemma {:induction false} DiskIsWhole<K, V>(s: Store<K, V>, ops: seq<Op<K, V>>)
    ensures var t := Run(s, ops);
            || t.disk == s.disk
            || exists i :: 0 <= i < |ops| && t.disk == Next(Run(s, ops[..i]).mem, ops[i])
  {
    if ops != [] {
      var n := |ops| - 1;
      var before := Run(s, ops[..n]);
      DiskIsWhole(s, ops[..n]);
      if Run(s, ops).disk == before.disk && before.disk != s.disk {
        var i :| 0 <= i < n && before.disk == Next(Run(s, ops[..n][..i]).mem, ops[..n][i]);
        assert ops[..n][..i] == ops[..i] && ops[..n][i] == ops[i];
      } else if Run(s, ops).disk != before.disk {
        assert Run(s, ops).disk == Next(before.mem, ops[n]);
      }
    }
  }
}
