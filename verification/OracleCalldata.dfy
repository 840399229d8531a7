/** `submitCompliance(uint8,uint8,bytes,bytes,bytes32)` calldata as hex text, and a decoder that follows its offsets. */
module OracleCalldata {
  import opened Arithmetic
  import opened Numerals
  import opened Text
  import opened Wrappers

  const WORD_HEX := 64
  const MAX_SAFE_INTEGER := 9007199254740991
  const SELECTOR_SUBMIT_COMPLIANCE := "0xf33bc62b"

  predicate IsHex(s: string) {
    |s| % 2 == 0 && forall i :: 0 <= i < |s| ==> IsHexDigit(s[i])
  }

  function Unprefixed(value: string): string {
    if |value| >= 2 && value[0] == '0' && value[1] == 'x' then value[2..] else value
  }

  function StripHex(value: string): Result<string> {
    if IsHex(Unprefixed(value)) then Ok(Unprefixed(value)) else Err
  }

  function PadStart(s: string): string {
    if |s| < WORD_HEX then Zeros(WORD_HEX - |s|) + s else s
  }

  function UintWord(value: nat): string {
    PadStart(Print(value, 16))
  }

  /** Whole words (of WORD_HEX digits) that hold n digits. */
  function Words(n: nat): (words: nat)
    ensures n <= 64 * words < n + 64
  {
    (n + WORD_HEX - 1) / WORD_HEX
  }

  /** The zeros that fill hex text up to whole words. */
  function Padding(hex: string): (padding: string)
    ensures |hex| + |padding| == 64 * Words(|hex|)
  {
    Zeros(64 * Words(|hex|) - |hex|)
  }

  function PiOffset(proofHex: string): nat {
    160 + 32 + (|proofHex| + |Padding(proofHex)|) / 2
  }

  function Layout(jurisdictionId: nat, proofType: nat, proofHex: string, piHex: string, hashHex: string): string {
    UintWord(jurisdictionId) + UintWord(proofType) + UintWord(160) + UintWord(PiOffset(proofHex)) + hashHex
    + UintWord(|proofHex| / 2) + (proofHex + Padding(proofHex)) + UintWord(|piHex| / 2) + piHex
  }

  function EncodeSubmitCompliance(jurisdictionId: nat, proofType: nat, proof: string, publicInputs: string, providerSetHash: string)
    : Result<string>
  {
    var proofHex, piHex, hashHex := StripHex(proof), StripHex(publicInputs), StripHex(providerSetHash);
    if proofHex.Err? || piHex.Err? || |piHex.value| % WORD_HEX != 0 then Err
    else if hashHex.Err? || |hashHex.value| != WORD_HEX then Err
    else Ok(SELECTOR_SUBMIT_COMPLIANCE + Layout(jurisdictionId, proofType, proofHex.value, piHex.value, hashHex.value))
  }

  // The decoder: section "Formal Specification of the Encoding" of the Solidity Contract ABI Specification.

  /** The word at a byte offset. */
  function WordAt(data: string, offset: nat): Result<string> {
    if 2 * offset + WORD_HEX <= |data| then Ok(data[2 * offset..2 * offset + WORD_HEX]) else Err
  }

  function UintAt(data: string, offset: nat): Result<nat> {
    match WordAt(data, offset)
    case Ok(word) => if IsNumeral(word, 16) then Ok(Parse(word, 16)) else Err
    case Err => Err
  }

  /** A `bytes` value: its head is the offset of a length word, the content and zeros up to a whole word. */
  function BytesAt(data: string, head: nat): Result<string> {
    match UintAt(data, head)
    case Err => Err
    case Ok(offset) =>
      match UintAt(data, offset)
      case Err => Err
      case Ok(length) =>
        var start := 2 * (offset + 32);
        if start + 2 * length > |data| then Err
        else
          var content := data[start..start + 2 * length];
          var padding := Padding(content);
          if start + |content| + |padding| <= |data| && data[start + |content|..start + |content| + |padding|] == padding
          then Ok(content) else Err
  }

  datatype Submission = Submission(jurisdictionId: nat, proofType: nat, proof: string, publicInputs: string, providerSetHash: string)

  function DecodeSubmitCompliance(calldata: string): Result<Submission> {
    if |calldata| < 10 || calldata[..10] != SELECTOR_SUBMIT_COMPLIANCE then Err else
      var data := calldata[10..];
      var j, p, proof, inputs, hash := UintAt(data, 0), UintAt(data, 32), BytesAt(data, 64), BytesAt(data, 96), WordAt(data, 128);
      if j.Err? || p.Err? || proof.Err? || inputs.Err? || hash.Err? then Err
      else Ok(Submission(j.value, p.value, proof.value, inputs.value, hash.value))
  }

  // The round trip.

  function Pow16(k: nat): nat {
    if k == 0 then 1 else 16 * Pow16(k - 1)
  }

  lemma {:induction false} PrintLength(n: nat, k: nat)
    requires k >= 1 && n < Pow16(k)
    ensures |Print(n, 16)| <= k
    decreases k
  {
    if n >= 16 {
      PrintUnfolds(n, 16);
      PrintLength(n / 16, k - 1);
    }
  }

  lemma UintWordParses(n: nat)
    requires n < Pow16(WORD_HEX)
    ensures IsWord(UintWord(n), n)
  {
    PrintLength(n, WORD_HEX);
    ParsePrint(n, 16);
    ParsePadded(WORD_HEX - |Print(n, 16)|, Print(n, 16), 16);
    assert Zeros(0) + Print(n, 16) == Print(n, 16);
  }

  predicate IsWord(word: string, n: nat) {
    |word| == WORD_HEX && IsNumeral(word, 16) && Parse(word, 16) == n
  }

  lemma ReadsWord(data: string, before: string, word: string, after: string, n: nat, offset: nat)
    requires data == before + word + after && IsWord(word, n) && |before| == 2 * offset
    ensures UintAt(data, offset) == Ok(n)
  {
    Middle(before, word, after);
  }

  lemma Slices(before: string, size: string, content: string, padding: string, after: string)
    ensures var d := before + size + (content + padding) + after;
            var start := |before| + |size|;
            && d == before + size + (content + padding + after)
            && |d| == start + |content| + |padding| + |after|
            && d[start..start + |content|] == content
            && d[start + |content|..start + |content| + |padding|] == padding
  {
    var d := before + size + (content + padding) + after;
    assert d == before + size + (content + padding + after);
    assert d == (before + size) + content + (padding + after);
    Middle(before + size, content, padding + after);
    assert d == (before + size + content) + padding + after;
    Middle(before + size + content, padding, after);
  }

  /** A length word, the content and its padding, wherever they lie, read back through a head that points there. */
  lemma BytesAtPart(data: string, head: nat, offset: nat, content: string, before: string, size: string, after: string)
    requires UintAt(data, head) == Ok(offset) && UintAt(data, offset) == Ok(|content| / 2)
    requires |before| == 2 * offset && |size| == WORD_HEX && |content| % 2 == 0
    requires data == before + size + (content + Padding(content)) + after
    ensures BytesAt(data, head) == Ok(content)
  {
    Slices(before, size, content, Padding(content), after);
  }

  lemma Reassociate(h: string, f: string, x: string, g: string, y: string)
    ensures h + f + x + g + y == h + (f + x + g + y)
    ensures h + f + x + g + y == (h + f + x) + g + y
    ensures h + f + x + g + y == h + f + x + (g + y)
    ensures h + f + x + g + y == h + f + (x + g + y)
  {
  }

  lemma PaddedOffset(hex: string)
    ensures 2 * PiOffset(hex) == 6 * WORD_HEX + |hex + Padding(hex)|
  {
    Halved(|hex| + |Padding(hex)|, Words(|hex|));
  }

  lemma Halved(n: nat, words: nat)
    requires n == 64 * words
    ensures n / 2 == 32 * words
  {
  }

  /** Four head words and the hash, with anything behind them. */
  lemma HeadsRead(t: string, a: string, b: string, c: string, d: string, hash: string, rest: string,
                  j: nat, p: nat, m: nat, n: nat)
    requires t == a + b + c + d + hash + rest && |hash| == WORD_HEX
    requires IsWord(a, j) && IsWord(b, p) && IsWord(c, m) && IsWord(d, n)
    ensures UintAt(t, 0) == Ok(j) && UintAt(t, 32) == Ok(p) && UintAt(t, 64) == Ok(m) && UintAt(t, 96) == Ok(n)
    ensures WordAt(t, 128) == Ok(hash)
  {
    Reassociate(a + b, c, d, hash, rest);
    Reassociate(a, b, c + d, hash, rest);
    assert t == [] + a + (b + c + d + hash + rest);
    ReadsWord(t, [], a, b + c + d + hash + rest, j, 0);
    assert t == a + b + (c + d + hash + rest);
    ReadsWord(t, a, b, c + d + hash + rest, p, 32);
    assert t == (a + b) + c + (d + hash + rest);
    ReadsWord(t, a + b, c, d + hash + rest, m, 64);
    assert t == (a + b + c) + d + (hash + rest);
    ReadsWord(t, a + b + c, d, hash + rest, n, 96);
    Middle(a + b + c + d, hash, rest);
  }

  /** Words a 256-bit slot can hold: the two ids, and the second offset with the length behind it. */
  predicate FitsWords(j: nat, p: nat, proofHex: string, piHex: string) {
    j < Pow16(WORD_HEX) && p < Pow16(WORD_HEX) && PiOffset(proofHex) < Pow16(WORD_HEX) && |piHex| / 2 < Pow16(WORD_HEX)
  }

  lemma ProofRead(t: string, head: string, f: string, proofHex: string, after: string)
    requires t == head + f + (proofHex + Padding(proofHex)) + after
    requires |head| == 5 * WORD_HEX && |f| == WORD_HEX && |proofHex| % 2 == 0
    requires UintAt(t, 64) == Ok(160) && UintAt(t, 160) == Ok(|proofHex| / 2)
    ensures BytesAt(t, 64) == Ok(proofHex)
  {
    BytesAtPart(t, 64, 160, proofHex, head, f, after);
  }

  lemma WholeUnpadded(hex: string)
    requires |hex| % WORD_HEX == 0
    ensures Padding(hex) == "" && hex + Padding(hex) == hex
  {
  }

  /** A `bytes` value of whole words that ends the data. */
  lemma BytesAtEnd(t: string, head: nat, offset: nat, start: nat, content: string)
    requires UintAt(t, head) == Ok(offset) && UintAt(t, offset) == Ok(|content| / 2) && start == 2 * (offset + 32)
    requires |content| % 2 == 0 && |t| == start + |content| && t[start..] == content && Padding(content) == ""
    ensures BytesAt(t, head) == Ok(content)
  {
    assert t[start..start + |content|] == content;
  }

  lemma InputsRead(t: string, before: string, g: string, piHex: string, off: nat)
    requires t == before + g + piHex && |before| == 2 * off && |g| == WORD_HEX && |piHex| % WORD_HEX == 0
    requires UintAt(t, 96) == Ok(off) && UintAt(t, off) == Ok(|piHex| / 2)
    ensures BytesAt(t, 96) == Ok(piHex)
  {
    WholeUnpadded(piHex);
    End(before + g, piHex);
    BytesAtEnd(t, 96, off, |before| + |g|, piHex);
  }

  lemma DecodesParts(t: string, s: Submission)
    requires UintAt(t, 0) == Ok(s.jurisdictionId) && UintAt(t, 32) == Ok(s.proofType)
    requires BytesAt(t, 64) == Ok(s.proof) && BytesAt(t, 96) == Ok(s.publicInputs) && WordAt(t, 128) == Ok(s.providerSetHash)
    ensures DecodeSubmitCompliance(SELECTOR_SUBMIT_COMPLIANCE + t) == Ok(s)
  {
    var calldata := SELECTOR_SUBMIT_COMPLIANCE + t;
    assert calldata[..10] == SELECTOR_SUBMIT_COMPLIANCE && calldata[10..] == t;
  }

  lemma FirstTail(t: string, head: string, proof: string, f: string, x: string, rest: string)
    requires t == head + f + x + rest && t == head + f + (x + rest) && x == proof + Padding(proof)
    requires |head| == 5 * WORD_HEX && IsWord(f, |proof| / 2) && |proof| % 2 == 0 && UintAt(t, 64) == Ok(160)
    ensures BytesAt(t, 64) == Ok(proof)
  {
    ReadsWord(t, head, f, x + rest, |proof| / 2, 160);
    ProofRead(t, head, f, proof, rest);
  }

  lemma SecondTail(t: string, before: string, inputs: string, g: string, off: nat)
    requires t == before + g + inputs && |before| == 2 * off && IsWord(g, |inputs| / 2)
    requires |inputs| % WORD_HEX == 0 && UintAt(t, 96) == Ok(off)
    ensures BytesAt(t, 96) == Ok(inputs)
  {
    ReadsWord(t, before, g, inputs, |inputs| / 2, off);
    InputsRead(t, before, g, inputs, off);
  }

  lemma HeadPart(t: string, head: string, f: string, x: string, g: string, y: string,
                 a: string, b: string, c: string, d: string, hash: string, j: nat, p: nat, off: nat)
    requires t == head + f + x + g + y && head == a + b + c + d + hash && |hash| == WORD_HEX
    requires IsWord(a, j) && IsWord(b, p) && IsWord(c, 160) && IsWord(d, off)
    ensures UintAt(t, 0) == Ok(j) && UintAt(t, 32) == Ok(p) && UintAt(t, 64) == Ok(160) && UintAt(t, 96) == Ok(off)
    ensures WordAt(t, 128) == Ok(hash)
  {
    Reassociate(head, f, x, g, y);
    HeadsRead(t, a, b, c, d, hash, f + x + g + y, j, p, 160, off);
  }

  lemma ProofPart(t: string, head: string, f: string, x: string, g: string, y: string, proof: string)
    requires t == head + f + x + g + y && |head| == 5 * WORD_HEX && UintAt(t, 64) == Ok(160)
    requires IsWord(f, |proof| / 2) && |proof| % 2 == 0 && x == proof + Padding(proof)
    ensures BytesAt(t, 64) == Ok(proof)
  {
    Reassociate(head, f, x, g, y);
    assert head + f + (x + (g + y)) == head + f + x + (g + y);
    FirstTail(t, head, proof, f, x, g + y);
  }

  lemma InputsPart(t: string, head: string, f: string, x: string, g: string, y: string, off: nat)
    requires t == head + f + x + g + y && |head| == 5 * WORD_HEX && |f| == WORD_HEX && 2 * off == 6 * WORD_HEX + |x|
    requires IsWord(g, |y| / 2) && |y| % WORD_HEX == 0 && UintAt(t, 96) == Ok(off)
    ensures BytesAt(t, 96) == Ok(y)
  {
    SecondTail(t, head + f + x, y, g, off);
  }

  lemma WordsDecode(t: string, s: Submission, head: string, a: string, b: string, c: string, d: string, f: string, x: string, g: string)
    requires t == head + f + x + g + s.publicInputs && head == a + b + c + d + s.providerSetHash && |head| == 5 * WORD_HEX
    requires IsWord(a, s.jurisdictionId) && IsWord(b, s.proofType) && IsWord(c, 160) && IsWord(d, PiOffset(s.proof))
    requires IsWord(f, |s.proof| / 2) && IsWord(g, |s.publicInputs| / 2) && x == s.proof + Padding(s.proof)
    requires |s.providerSetHash| == WORD_HEX && |s.proof| % 2 == 0 && |s.publicInputs| % WORD_HEX == 0
    requires 2 * PiOffset(s.proof) == 6 * WORD_HEX + |x|
    ensures DecodeSubmitCompliance(SELECTOR_SUBMIT_COMPLIANCE + t) == Ok(s)
  {
    HeadPart(t, head, f, x, g, s.publicInputs, a, b, c, d, s.providerSetHash, s.jurisdictionId, s.proofType, PiOffset(s.proof));
    ProofPart(t, head, f, x, g, s.publicInputs, s.proof);
    InputsPart(t, head, f, x, g, s.publicInputs, PiOffset(s.proof));
    DecodesParts(t, s);
  }

  lemma LayoutDecodes(s: Submission)
    requires FitsWords(s.jurisdictionId, s.proofType, s.proof, s.publicInputs)
    requires |s.providerSetHash| == WORD_HEX && |s.proof| % 2 == 0 && |s.publicInputs| % WORD_HEX == 0
    ensures DecodeSubmitCompliance(SELECTOR_SUBMIT_COMPLIANCE +
                                   Layout(s.jurisdictionId, s.proofType, s.proof, s.publicInputs, s.providerSetHash)) == Ok(s)
  {
    var n, m, off := |s.proof| / 2, |s.publicInputs| / 2, PiOffset(s.proof);
    var a, b, c, d, f, g := AllWords(s.jurisdictionId, s.proofType, 160, off, n, m);
    var head, x := a + b + c + d + s.providerSetHash, s.proof + Padding(s.proof);
    PaddedOffset(s.proof);
    WordsDecode(head + f + x + g + s.publicInputs, s, head, a, b, c, d, f, x, g);
  }

  lemma AllWords(j: nat, p: nat, first: nat, off: nat, n: nat, m: nat)
    returns (a: string, b: string, c: string, d: string, f: string, g: string)
    requires j < Pow16(WORD_HEX) && p < Pow16(WORD_HEX) && first <= off < Pow16(WORD_HEX)
    requires n < Pow16(WORD_HEX) && m < Pow16(WORD_HEX)
    ensures a == UintWord(j) && b == UintWord(p) && c == UintWord(first) && d == UintWord(off) && f == UintWord(n) && g == UintWord(m)
    ensures IsWord(a, j) && IsWord(b, p) && IsWord(c, first) && IsWord(d, off) && IsWord(f, n) && IsWord(g, m)
  {
    a, b, c, d, f, g := UintWord(j), UintWord(p), UintWord(first), UintWord(off), UintWord(n), UintWord(m);
    UintWordParses(j);
    UintWordParses(p);
    UintWordParses(first);
    UintWordParses(off);
    UintWordParses(n);
    UintWordParses(m);
  }

  /** A checked uint8, and a text no JavaScript string outgrows. */
  predicate Sendable(j: nat, p: nat, proof: string, publicInputs: string) {
    j <= 255 && p <= 255 && |proof| <= MAX_SAFE_INTEGER && |publicInputs| <= MAX_SAFE_INTEGER
  }

  lemma {:induction false} Pow16Grows(k: nat, n: nat)
    requires k <= n
    ensures Pow16(k) <= Pow16(n)
  {
    if k < n {
      Pow16Grows(k, n - 1);
    }
  }

  lemma SendableFits(j: nat, p: nat, proof: string, publicInputs: string)
    requires Sendable(j, p, proof, publicInputs)
    ensures FitsWords(j, p, Unprefixed(proof), Unprefixed(publicInputs))
  {
    assert Pow16(14) == 0x100_0000_0000_0000;
    Pow16Grows(14, WORD_HEX);
  }

  /**
   Whatever the encoder accepts, a decoder that follows offsets and lengths reads back exactly
   the two ids, the proof, the public inputs and the provider set hash.
   */
  lemma CalldataRoundTrip(j: nat, p: nat, proof: string, publicInputs: string, providerSetHash: string)
    requires Sendable(j, p, proof, publicInputs)
    ensures var calldata := EncodeSubmitCompliance(j, p, proof, publicInputs, providerSetHash);
            && (calldata.Ok? <==> IsHex(Unprefixed(proof)) && IsHex(Unprefixed(publicInputs)) && IsHex(Unprefixed(providerSetHash))
                                  && |Unprefixed(publicInputs)| % WORD_HEX == 0 && |Unprefixed(providerSetHash)| == WORD_HEX)
            && (calldata.Ok? ==>
                  DecodeSubmitCompliance(calldata.value) ==
                  Ok(Submission(j, p, Unprefixed(proof), Unprefixed(publicInputs), Unprefixed(providerSetHash))))
  {
    SendableFits(j, p, proof, publicInputs);
    if EncodeSubmitCompliance(j, p, proof, publicInputs, providerSetHash).Ok? {
      LayoutDecodes(Submission(j, p, Unprefixed(proof), Unprefixed(publicInputs), Unprefixed(providerSetHash)));
    }
  }

  /** No two submissions share calldata. */
  lemma CalldataInjective(s: Submission, t: Submission)
    requires Sendable(s.jurisdictionId, s.proofType, s.proof, s.publicInputs)
    requires Sendable(t.jurisdictionId, t.proofType, t.proof, t.publicInputs)
    requires Encoded(s).Ok? && Encoded(s) == Encoded(t)
    ensures s.jurisdictionId == t.jurisdictionId && s.proofType == t.proofType && Unprefixed(s.proof) == Unprefixed(t.proof)
    ensures Unprefixed(s.publicInputs) == Unprefixed(t.publicInputs) && Unprefixed(s.providerSetHash) == Unprefixed(t.providerSetHash)
  {
    CalldataRoundTrip(s.jurisdictionId, s.proofType, s.proof, s.publicInputs, s.providerSetHash);
    CalldataRoundTrip(t.jurisdictionId, t.proofType, t.proof, t.publicInputs, t.providerSetHash);
  }

  /** Two digits a byte, of either case. */
  predicate SpellsBare(hex: string, bytes: seq<nat>) {
    && |hex| == 2 * |bytes|
    && forall i :: 0 <= i < |bytes| ==>
         && DigitValue(LowerChar(hex[2 * i])) < 16 && DigitValue(LowerChar(hex[2 * i + 1])) < 16
         && bytes[i] == DigitValue(LowerChar(hex[2 * i])) * 16 + DigitValue(LowerChar(hex[2 * i + 1]))
  }

  /** Bytes as a caller may write them, with 0x or without. */
  predicate Spells(text: string, bytes: seq<nat>) {
    SpellsBare(text, bytes) || ("0x" <= text && SpellsBare(text[2..], bytes))
  }

  function BytesOf(hex: string): seq<nat>
    requires |hex| % 2 == 0
  {
    seq(|hex| / 2, i requires 0 <= i < |hex| / 2 => DigitValue(LowerChar(hex[2 * i])) * 16 + DigitValue(LowerChar(hex[2 * i + 1])))
  }

  lemma BareDigits(hex: string, bytes: seq<nat>)
    requires SpellsBare(hex, bytes)
    ensures forall k :: 0 <= k < |hex| ==> DigitValue(LowerChar(hex[k])) < 16
  {
    forall k | 0 <= k < |hex| ensures DigitValue(LowerChar(hex[k])) < 16 {
      assert k == 2 * (k / 2) || k == 2 * (k / 2) + 1;
      assert 0 <= k / 2 < |bytes|;
    }
  }

  /** Stripping succeeds on exactly the texts that spell bytes, and leaves their digits. */
  lemma StrippedSpells(text: string, bytes: seq<nat>)
    requires Spells(text, bytes)
    ensures StripHex(text) == Ok(Unprefixed(text)) && SpellsBare(Unprefixed(text), bytes)
    ensures |Unprefixed(text)| % 64 == 0 <==> |bytes| % 32 == 0
    ensures |Unprefixed(text)| == 64 <==> |bytes| == 32
  {
    if SpellsBare(text, bytes) {
      BareDigits(text, bytes);
      assert |text| >= 2 ==> DigitValue(LowerChar(text[1])) < 16;
    } else {
      BareDigits(text[2..], bytes);
    }
  }

  lemma StrippedIsSpelled(text: string)
    requires StripHex(text).Ok?
    ensures Spells(text, BytesOf(StripHex(text).value))
  {
    var hex := StripHex(text).value;
    assert SpellsBare(hex, BytesOf(hex));
    assert hex != text ==> text[..2] == "0x";
  }

  /** The ids of s, and digits of these bytes. */
  predicate Carries(read: Result<Submission>, s: Submission, proof: seq<nat>, inputs: seq<nat>, hash: seq<nat>) {
    && read.Ok? && read.value.jurisdictionId == s.jurisdictionId && read.value.proofType == s.proofType
    && SpellsBare(read.value.proof, proof) && SpellsBare(read.value.publicInputs, inputs)
    && SpellsBare(read.value.providerSetHash, hash)
  }

  /**
   The bytes arrive: whatever spelling the three texts have, the encoder accepts them if and only if the
   public inputs are whole words and the hash is one, and a decoder reads digits of the very same bytes.
   */
  lemma BytesArrive(s: Submission, proof: seq<nat>, inputs: seq<nat>, hash: seq<nat>)
    requires s.jurisdictionId <= 255 && s.proofType <= 255 && |s.proof| <= MAX_SAFE_INTEGER && |s.publicInputs| <= MAX_SAFE_INTEGER
    requires Spells(s.proof, proof) && Spells(s.publicInputs, inputs) && Spells(s.providerSetHash, hash)
    ensures Encoded(s).Ok? <==> |inputs| % 32 == 0 && |hash| == 32
    ensures Encoded(s).Ok? ==> Carries(DecodeSubmitCompliance(Encoded(s).value), s, proof, inputs, hash)
  {
    StrippedSpells(s.proof, proof);
    StrippedSpells(s.publicInputs, inputs);
    StrippedSpells(s.providerSetHash, hash);
    CalldataRoundTrip(s.jurisdictionId, s.proofType, s.proof, s.publicInputs, s.providerSetHash);
  }

  /** Every call starts with the selector of `submitCompliance`. */
  lemma CallsSubmitCompliance(s: Submission)
    requires Encoded(s).Ok?
    ensures |Encoded(s).value| >= 10 && Encoded(s).value[..10] == "0xf33bc62b"
  {
    var layout := Layout(s.jurisdictionId, s.proofType, Unprefixed(s.proof), Unprefixed(s.publicInputs), Unprefixed(s.providerSetHash));
    assert Encoded(s).value == SELECTOR_SUBMIT_COMPLIANCE + layout;
    assert (SELECTOR_SUBMIT_COMPLIANCE + layout)[..10] == SELECTOR_SUBMIT_COMPLIANCE;
  }

  /** And nothing else is accepted: each of the three texts of accepted input spells bytes. */
  lemma OnlyBytesAccepted(s: Submission) returns (proof: seq<nat>, inputs: seq<nat>, hash: seq<nat>)
    requires Encoded(s).Ok?
    ensures Spells(s.proof, proof) && Spells(s.publicInputs, inputs) && Spells(s.providerSetHash, hash)
  {
    StrippedIsSpelled(s.proof);
    StrippedIsSpelled(s.publicInputs);
    StrippedIsSpelled(s.providerSetHash);
    proof, inputs := BytesOf(StripHex(s.proof).value), BytesOf(StripHex(s.publicInputs).value);
    hash := BytesOf(StripHex(s.providerSetHash).value);
  }

  function Encoded(s: Submission): Result<string> {
    EncodeSubmitCompliance(s.jurisdictionId, s.proofType, s.proof, s.publicInputs, s.providerSetHash)
  }

  // The words handed back to the caller.

  function Concat(words: seq<string>): string {
    if words == [] then "" else Concat(words[..|words| - 1]) + words[|words| - 1]
  }

  lemma ConcatSnoc(words: seq<string>, word: string)
    ensures Concat(words + [word]) == Concat(words) + word
  {
    assert (words + [word])[..|words|] == words;
  }

  /** 32-byte words, lower-cased and 0x-prefixed, or nothing when the text is not whole words of hex. */
  method SplitWords(publicInputs: string) returns (r: Result<seq<string>>)
    ensures var hex := Unprefixed(publicInputs);
            && (r.Ok? <==> |hex| % WORD_HEX == 0 && IsHex(hex))
            && (r.Ok? ==>
                  && (forall k :: 0 <= k < |r.value| ==> |r.value[k]| == 2 + WORD_HEX && r.value[k][..2] == "0x")
                  && |r.value| * WORD_HEX == |hex|
                  && Concat(Bare(r.value)) == Lower(hex))
  {
    var hex := Unprefixed(publicInputs);
    if |hex| % WORD_HEX != 0 || !IsHex(hex) { return Err; }
    var words: seq<string> := [];
    var i := 0;
    while i < |hex|
      invariant 0 <= i <= |hex| && i == |words| * WORD_HEX
      invariant forall k :: 0 <= k < |words| ==> |words[k]| == 2 + WORD_HEX && words[k][..2] == "0x"
      invariant Concat(Bare(words)) == Lower(hex[..i])
    {
      var word := Lower(hex[i..i + WORD_HEX]);
      BareSnoc(words, word);
      ConcatSnoc(Bare(words), word);
      LowerConcat(hex[..i], hex[i..i + WORD_HEX]);
      assert hex[..i + WORD_HEX] == hex[..i] + hex[i..i + WORD_HEX];
      words := words + ["0x" + word];
      i := i + WORD_HEX;
    }
    assert hex[..i] == hex;
    r := Ok(words);
  }

  function Bare(words: seq<string>): seq<string>
    requires forall k :: 0 <= k < |words| ==> |words[k]| >= 2
  {
    seq(|words|, k requires 0 <= k < |words| => words[k][2..])
  }

  lemma BareSnoc(words: seq<string>, word: string)
    requires forall k :: 0 <= k < |words| ==> |words[k]| >= 2
    ensures var more := words + ["0x" + word];
            (forall k :: 0 <= k < |more| ==> |more[k]| >= 2) && Bare(more) == Bare(words) + [word]
  {
  }
}
