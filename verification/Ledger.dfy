/** The in-memory signing ledger: one retained bundle a key, expiring, bounded, oldest insertion dropped first. */
module Ledger {
  import opened Numerals
  import opened OrderedMap
  import opened Text
  import opened Wrappers

  type Byte = x: int | 0 <= x < 256

  type Bytes = seq<Byte>

  /** A signed bundle's bytes. */
  datatype Signed = Signed(signature: Bytes, pubkeyX: Bytes, pubkeyY: Bytes, signerPubkeyHash: Bytes, payloadHash: Bytes)

  datatype Row = Row(timestamp: int, signed: Signed)

  type Rows = Entries<string, Row>

  // The key.

  function HexBytes(bytes: Bytes): string {
    if bytes == [] then "" else
      HexBytes(bytes[..|bytes| - 1]) + [DigitChar(bytes[|bytes| - 1] / 16), DigitChar(bytes[|bytes| - 1] % 16)]
  }

  function KeyFor(submitter: int, payloadHash: Bytes): string {
    PrintSigned(submitter, 16) + [':'] + HexBytes(payloadHash)
  }

  lemma {:induction false} HexBytesInjective(a: Bytes, b: Bytes)
    requires HexBytes(a) == HexBytes(b)
    ensures a == b
  {
    HexBytesLength(a);
    HexBytesLength(b);
    if a != [] {
      var m, n := |a| - 1, |b| - 1;
      var s := HexBytes(a);
      HexBytesLength(a[..m]);
      HexBytesLength(b[..n]);
      assert HexBytes(a[..m]) == s[..|s| - 2] == HexBytes(b[..n]);
      assert s[|s| - 2] == DigitChar(a[m] / 16) == DigitChar(b[n] / 16);
      assert s[|s| - 1] == DigitChar(a[m] % 16) == DigitChar(b[n] % 16);
      HexBytesInjective(a[..m], b[..n]);
      assert a == a[..m] + [a[m]] && b == b[..n] + [b[n]];
    }
  }

  lemma {:induction false} HexBytesLength(bytes: Bytes)
    ensures |HexBytes(bytes)| == 2 * |bytes|
  {
    if bytes != [] {
      HexBytesLength(bytes[..|bytes| - 1]);
    }
  }

  /** No two requests share a row. */
  lemma KeyInjective(submitter: int, payloadHash: Bytes, submitter': int, payloadHash': Bytes)
    requires KeyFor(submitter, payloadHash) == KeyFor(submitter', payloadHash')
    ensures submitter == submitter' && payloadHash == payloadHash'
  {
    PrintSignedPlain(submitter, 16, ':');
    PrintSignedPlain(submitter', 16, ':');
    SplitAt(':', PrintSigned(submitter, 16), HexBytes(payloadHash), PrintSigned(submitter', 16), HexBytes(payloadHash'));
    PrintSignedInjective(submitter, submitter', 16);
    HexBytesInjective(payloadHash, payloadHash');
  }

  // What the ledger does to its rows.

  function Unexpired(rows: Rows, cutoff: int): Rows {
    if rows == [] then [] else
      var rest := Unexpired(rows[..|rows| - 1], cutoff);
      if rows[|rows| - 1].1.timestamp < cutoff then rest else rest + [rows[|rows| - 1]]
  }

  predicate SameIdentity(a: Signed, b: Signed) {
    a.pubkeyX == b.pubkeyX && a.pubkeyY == b.pubkeyY
  }

  function Newest(rows: Rows, max: nat): Rows {
    if |rows| <= max then rows else rows[|rows| - max..]
  }

  predicate Stands(rows: Rows, key: string, signed: Signed) {
    var i := Find(rows, key);
    i < |rows| && SameIdentity(rows[i].1.signed, signed)
  }

  /** The rows once one candidate was offered, among rows already free of expired ones. */
  function Offered(rows: Rows, key: string, timestamp: int, signed: Signed, max: nat): Rows {
    if Stands(rows, key, signed) then rows else Newest(Delete(rows, key) + [(key, Row(timestamp, signed))], max)
  }

  /** The bundle every contender is answered with. */
  function Canonical(rows: Rows, key: string, signed: Signed): Signed {
    if Stands(rows, key, signed) then rows[Find(rows, key)].1.signed else signed
  }

  // The class.

  /** A bundle as the five byte arrays a caller and the ledger hand each other. */
  datatype Bundle = Bundle(signature: array<Byte>, pubkeyX: array<Byte>, pubkeyY: array<Byte>,
                           signerPubkeyHash: array<Byte>, payloadHash: array<Byte>)

  ghost function Arrays(b: Bundle): set<object> {
    {b.signature, b.pubkeyX, b.pubkeyY, b.signerPubkeyHash, b.payloadHash}
  }

  function Content(b: Bundle): Signed
    reads Arrays(b)
  {
    Signed(b.signature[..], b.pubkeyX[..], b.pubkeyY[..], b.signerPubkeyHash[..], b.payloadHash[..])
  }

  method CopyBytes(value: array<Byte>) returns (copy: array<Byte>)
    ensures fresh(copy) && copy[..] == value[..]
  {
    copy := new Byte[value.Length];
    var index := 0;
    while index < value.Length
      invariant 0 <= index <= value.Length && copy[..index] == value[..index]
    {
      copy[index] := value[index];
      index := index + 1;
    }
  }

  method CopyBundle(b: Bundle) returns (copy: Bundle)
    ensures fresh(Arrays(copy)) && Content(copy) == Content(b)
  {
    var signature := CopyBytes(b.signature);
    var x := CopyBytes(b.pubkeyX);
    var y := CopyBytes(b.pubkeyY);
    var hash := CopyBytes(b.signerPubkeyHash);
    var payload := CopyBytes(b.payloadHash);
    copy := Bundle(signature, x, y, hash, payload);
  }

  datatype Entry = Entry(timestamp: int, bundle: Bundle)

  /** The entries hold these rows, in arrays of `owned`. */
  ghost predicate Mirrors(entries: Entries<string, Entry>, rows: Rows, owned: set<object>)
    reads owned
  {
    && |entries| == |rows|
    && forall i :: 0 <= i < |rows| ==>
         && Arrays(entries[i].1.bundle) <= owned
         && rows[i] == (entries[i].0, Row(entries[i].1.timestamp, Content(entries[i].1.bundle)))
  }

  lemma MirrorsDelete(entries: Entries<string, Entry>, rows: Rows, owned: set<object>, key: string)
    requires Mirrors(entries, rows, owned) && Distinct(rows)
    ensures Find(entries, key) == Find(rows, key)
    ensures Mirrors(Delete(entries, key), Delete(rows, key), owned) && Distinct(Delete(rows, key))
  {
    FindIs(entries, key, Find(rows, key));
    DeleteIsRemove(rows, key);
    forall j | 0 <= j < |Delete(rows, key)|
      ensures var k := if j < Find(rows, key) then j else j + 1;
              k < |rows| && Delete(rows, key)[j] == rows[k] && j < |Delete(entries, key)| && Delete(entries, key)[j] == entries[k]
    {
      DeletedFrom(rows, key, j);
      DeletedFrom(entries, key, j);
    }
  }

  class MemoryReplayDb {
    var entries: Entries<string, Entry>
    const retentionSeconds: nat
    const maxEntries: nat

    /** What the entries hold by value, and the arrays they hold it in. */
    ghost var rows: Rows
    ghost var owned: set<object>

    ghost predicate Consistent()
      reads this, owned
    {
      Mirrors(entries, rows, owned) && Distinct(rows)
    }

    ghost predicate Valid()
      reads this, owned
    {
      Consistent() && 1 <= maxEntries && |rows| <= maxEntries
    }

    constructor (retention: nat, max: nat)
      requires max >= 1
      ensures Valid() && rows == [] && owned == {} && retentionSeconds == retention && maxEntries == max
    {
      entries, retentionSeconds, maxEntries := [], retention, max;
      rows, owned := [], {};
    }

    /** The map's `delete`. */
    method Forget(key: string)
      requires Consistent()
      modifies this`entries, this`rows
      ensures Consistent() && rows == Delete(old(rows), key)
    {
      MirrorsDelete(entries, rows, owned, key);
      entries := Delete(entries, key);
      rows := Delete(rows, key);
    }

    /** The map's `set` of an absent key, with arrays that are now the ledger's. */
    method Append(key: string, timestamp: int, own: Bundle)
      requires Consistent() && Find(rows, key) == |rows|
      modifies this`entries, this`rows, this`owned
      ensures Consistent() && owned == old(owned) + Arrays(own)
      ensures rows == old(rows) + [(key, Row(timestamp, Content(own)))]
    {
      entries := entries + [(key, Entry(timestamp, own))];
      rows := rows + [(key, Row(timestamp, Content(own)))];
      owned := owned + Arrays(own);
      assert forall i :: 0 <= i < |rows| - 1 ==> entries[i] == old(entries)[i] && rows[i] == old(rows)[i];
    }

    /** Drops the oldest rows until the cap holds. */
    method Trim()
      requires Consistent() && maxEntries >= 1
      modifies this`entries, this`rows
      ensures Valid() && rows == Newest(old(rows), maxEntries)
    {
      while |entries| > maxEntries
        invariant Consistent() && Newest(rows, maxEntries) == Newest(old(rows), maxEntries)
        decreases |entries|
      {
        OldestGoes(rows, maxEntries);
        Forget(entries[0].0);
      }
    }

    /** Visits each row once, deleting the expired ones where they stand. */
    method EvictExpired(now: int)
      requires Valid()
      modifies this`entries, this`rows
      ensures Valid() && rows == Unexpired(old(rows), now - retentionSeconds)
    {
      var cutoff := now - retentionSeconds;
      var i := 0;
      while i < |entries|
        invariant i <= |entries| <= maxEntries && Consistent()
        invariant Unexpired(rows, cutoff) == Unexpired(old(rows), cutoff)
        invariant FreshTo(rows, cutoff, i)
        decreases |entries| - i
      {
        if entries[i].1.timestamp < cutoff {
          EvictOne(rows, cutoff, i);
          Forget(entries[i].0);
        } else {
          FreshNext(rows, cutoff, i);
          i := i + 1;
        }
      }
      UnexpiredAll(rows, cutoff);
    }

    method CopyRow(i: nat) returns (copy: Bundle)
      requires Valid() && i < |entries|
      ensures Valid() && fresh(Arrays(copy)) && Content(copy) == rows[i].1.signed
    {
      copy := CopyBundle(entries[i].1.bundle);
    }

    /** The retained bundle of this request, in arrays of its own. */
    method Lookup(submitter: int, payloadHash: Bytes, now: int) returns (r: Option<Bundle>)
      requires Valid()
      modifies this`entries, this`rows
      ensures Valid() && rows == Unexpired(old(rows), now - retentionSeconds)
      ensures r.Some? <==> Find(rows, KeyFor(submitter, payloadHash)) < |rows|
      ensures r.Some? ==> fresh(Arrays(r.value)) && Arrays(r.value) !! owned
      ensures r.Some? ==> Content(r.value) == rows[Find(rows, KeyFor(submitter, payloadHash))].1.signed
    {
      EvictExpired(now);
      var key := KeyFor(submitter, payloadHash);
      var i := Find(entries, key);
      FindIs(rows, key, i);
      if i == |entries| { return None; }
      var copy := CopyRow(i);
      r := Some(copy);
    }

    /** The candidate's own copy becomes the newest row of its key. */
    method Retain(key: string, timestamp: int, candidate: Bundle)
      requires Valid()
      modifies this`entries, this`rows, this`owned
      ensures Valid() && fresh(owned - old(owned))
      ensures rows == Newest(Delete(old(rows), key) + [(key, Row(timestamp, old(Content(candidate))))], maxEntries)
    {
      Forget(key);
      DeletedAbsent(old(rows), key);
      var own := CopyBundle(candidate);
      Append(key, timestamp, own);
      Trim();
    }

    /**
     Retains the candidate unless a bundle of the same signer stands, and answers with the
     bundle that stands. Neither the answer nor the row is the caller's arrays.
     */
    method RecordCanonical(submitter: int, payloadHash: Bytes, timestamp: int, candidate: Bundle, now: int)
      returns (canonical: Bundle, inserted: bool)
      requires Valid()
      modifies this`entries, this`rows, this`owned
      ensures Valid() && fresh(owned - old(owned))
      ensures fresh(Arrays(canonical)) && Arrays(canonical) !! owned
      ensures var live := Unexpired(old(rows), now - retentionSeconds);
              var key := KeyFor(submitter, payloadHash);
              && rows == Offered(live, key, timestamp, old(Content(candidate)), maxEntries)
              && Content(canonical) == Canonical(live, key, old(Content(candidate)))
              && (inserted <==> !Stands(live, key, old(Content(candidate))))
    {
      EvictExpired(now);
      var key := KeyFor(submitter, payloadHash);
      var i := Find(entries, key);
      FindIs(rows, key, i);
      if i < |entries| && entries[i].1.bundle.pubkeyX[..] == candidate.pubkeyX[..]
         && entries[i].1.bundle.pubkeyY[..] == candidate.pubkeyY[..] {
        canonical := CopyRow(i);
        return canonical, false;
      }
      Retain(key, timestamp, candidate);
      canonical := CopyBundle(candidate);
      inserted := true;
    }
  }

  lemma OldestGoes(rows: Rows, max: nat)
    requires Distinct(rows) && |rows| > max
    ensures Newest(Delete(rows, rows[0].0), max) == Newest(rows, max)
  {
    FindIs(rows, rows[0].0, 0);
    assert Delete(rows, rows[0].0) == rows[1..];
  }

  lemma EvictOne(rows: Rows, cutoff: int, i: nat)
    requires Distinct(rows) && i < |rows| && rows[i].1.timestamp < cutoff
    requires FreshTo(rows, cutoff, i)
    ensures var n := Delete(rows, rows[i].0);
            |n| == |rows| - 1 && FreshTo(n, cutoff, i) && Unexpired(n, cutoff) == Unexpired(rows, cutoff)
  {
    FindIs(rows, rows[i].0, i);
    UnexpiredWithout(rows, cutoff, i);
  }

  /** The rows visited so far are not expired. */
  ghost predicate FreshTo(rows: Rows, cutoff: int, i: nat) {
    i <= |rows| && forall j :: 0 <= j < i ==> rows[j].1.timestamp >= cutoff
  }

  lemma FreshNext(rows: Rows, cutoff: int, i: nat)
    requires i < |rows| && FreshTo(rows, cutoff, i) && rows[i].1.timestamp >= cutoff
    ensures FreshTo(rows, cutoff, i + 1)
  {
  }

  lemma {:induction false} UnexpiredWithout(rows: Rows, cutoff: int, i: nat)
    requires i < |rows| && rows[i].1.timestamp < cutoff
    ensures Unexpired(rows[..i] + rows[i + 1..], cutoff) == Unexpired(rows, cutoff)
  {
    var without, n := rows[..i] + rows[i + 1..], |rows| - 1;
    if i == n {
      assert without == rows[..n];
    } else {
      UnexpiredWithout(rows[..n], cutoff, i);
      assert without[..n - 1] == rows[..n][..i] + rows[..n][i + 1..];
      assert without[n - 1] == rows[n];
    }
  }

  lemma {:induction false} UnexpiredAll(rows: Rows, cutoff: int)
    requires FreshTo(rows, cutoff, |rows|)
    ensures Unexpired(rows, cutoff) == rows
  {
    if rows != [] {
      UnexpiredAll(rows[..|rows| - 1], cutoff);
    }
  }

  /**
   What an offer does to the rows of its key. A standing row signed under the same public key, both
   coordinates of it, is kept and is the answer; over any other, or none, the candidate becomes the
   newest row and is itself the answer.
   */
  lemma OfferedExactly(rows: Rows, key: string, timestamp: int, signed: Signed, max: nat)
    requires Distinct(rows) && max >= 1
    ensures var i, after := Find(rows, key), Offered(rows, key, timestamp, signed, max);
            if i < |rows| && rows[i].1.signed.pubkeyX == signed.pubkeyX && rows[i].1.signed.pubkeyY == signed.pubkeyY then
              after == rows && Canonical(rows, key, signed) == rows[i].1.signed
            else
              && Canonical(rows, key, signed) == signed
              && after != [] && after[|after| - 1] == (key, Row(timestamp, signed)) && Find(after, key) == |after| - 1
              && |after| == (if |Delete(rows, key)| < max then |Delete(rows, key)| + 1 else max)
              && after[..|after| - 1] <= Delete(rows, key)[|Delete(rows, key)| + 1 - |after|..]
  {
    var rest := Delete(rows, key);
    var all := rest + [(key, Row(timestamp, signed))];
    DeletedAbsent(rows, key);
    if !Stands(rows, key, signed) {
      var after := Newest(all, max);
      assert after == all[|all| - |after|..];
      assert after[..|after| - 1] == rest[|rest| + 1 - |after|..];
      FindIs(after, key, |after| - 1);
    }
  }

  /** Eviction is by age alone: exactly the rows not older than the cutoff stay. */
  lemma {:induction false} UnexpiredExactly(rows: Rows, cutoff: int, r: (string, Row))
    ensures r in Unexpired(rows, cutoff) <==> r in rows && r.1.timestamp >= cutoff
  {
    if rows != [] {
      UnexpiredExactly(rows[..|rows| - 1], cutoff, r);
      assert rows == rows[..|rows| - 1] + [rows[|rows| - 1]];
    }
  }
}
