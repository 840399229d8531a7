/** The deposit attestation's signed message: eighteen lines joined by newlines, with nothing escaped. */
module DepositAttestation {
  import opened Numerals
  import opened Text
  import opened Wrappers

  const DEPOSIT_ATTESTATION_VERSION := "xochi-deposit-attestation:v3"

  datatype Fields = Fields(
    intentId: string, quoteId: string, wallet: string, fromChainId: int, fromToken: string, fromAmount: string,
    depositAddress: string, depositDeadline: Option<int>, refundAddress: Option<string>,
    toChainId: int, toToken: string, toAmount: string, minToAmount: string, recipient: string,
    stealthSpendingPubKey: Option<string>, stealthViewingPubKey: Option<string>, settlementPreference: string)

  predicate Prefixed(s: string) {
    |s| >= 2 && s[0] == '0' && s[1] == 'x'
  }

  function NormalizeAddress(address: string): string {
    if Prefixed(address) then Lower(address) else address
  }

  /** Only a value that is hex throughout is lowercased; a party id such as `0xAlice::1220` keeps its case. */
  function NormalizePartyCapable(address: string): string {
    if Prefixed(address) && |address| > 2 && forall i :: 2 <= i < |address| ==> IsHexDigit(address[i])
    then Lower(address) else address
  }

  function OptionalText(value: Option<string>): string {
    if value.None? then "" else NormalizeAddress(value.value)
  }

  function OptionalNumber(value: Option<int>): string {
    if value.None? then "" else PrintSigned(value.value, 10)
  }

  function Parts(f: Fields): seq<string> {
    [DEPOSIT_ATTESTATION_VERSION, f.intentId, f.quoteId] + Terms(f)
  }

  function Terms(f: Fields): seq<string> {
    [NormalizeAddress(f.wallet), PrintSigned(f.fromChainId, 10), NormalizeAddress(f.fromToken), f.fromAmount,
     NormalizeAddress(f.depositAddress), OptionalNumber(f.depositDeadline), OptionalText(f.refundAddress),
     PrintSigned(f.toChainId, 10), NormalizePartyCapable(f.toToken), f.toAmount, f.minToAmount,
     NormalizePartyCapable(f.recipient), OptionalText(f.stealthSpendingPubKey), OptionalText(f.stealthViewingPubKey),
     f.settlementPreference]
  }

  function Join(parts: seq<string>): string
    requires parts != []
  {
    if |parts| == 1 then parts[0] else parts[0] + ['\n'] + Join(parts[1..])
  }

  predicate OneLine(parts: seq<string>) {
    forall i :: 0 <= i < |parts| ==> '\n' !in parts[i]
  }

  function BuildMessage(f: Fields): Result<string> {
    if OneLine(Parts(f)) then Ok(Join(Parts(f))) else Err
  }

  lemma {:induction false} JoinInjective(a: seq<string>, b: seq<string>)
    requires |a| == |b| > 0 && OneLine(a) && OneLine(b) && Join(a) == Join(b)
    ensures a == b
  {
    if |a| > 1 {
      SplitAt('\n', a[0], Join(a[1..]), b[0], Join(b[1..]));
      JoinInjective(a[1..], b[1..]);
      assert a == [a[0]] + a[1..] && b == [b[0]] + b[1..];
    }
  }

  /** The deal the message names: addresses as the server writes them, an absent text and an empty one alike. */
  function Canonical(f: Fields): Fields {
    f.(wallet := NormalizeAddress(f.wallet), fromToken := NormalizeAddress(f.fromToken),
       depositAddress := NormalizeAddress(f.depositAddress), refundAddress := Some(OptionalText(f.refundAddress)),
       toToken := NormalizePartyCapable(f.toToken), recipient := NormalizePartyCapable(f.recipient),
       stealthSpendingPubKey := Some(OptionalText(f.stealthSpendingPubKey)),
       stealthViewingPubKey := Some(OptionalText(f.stealthViewingPubKey)))
  }

  lemma OptionalNumberInjective(a: Option<int>, b: Option<int>)
    requires OptionalNumber(a) == OptionalNumber(b)
    ensures a == b
  {
    if a.Some? && b.Some? {
      PrintSignedInjective(a.value, b.value, 10);
    }
  }

  lemma SamePartsSameDeal(f: Fields, g: Fields)
    requires Parts(f) == Parts(g)
    ensures Canonical(f) == Canonical(g)
  {
    var p, q := Parts(f), Parts(g);
    assert p[1] == q[1] && p[2] == q[2] && p[3] == q[3] && p[4] == q[4] && p[5] == q[5] && p[6] == q[6];
    assert p[7] == q[7] && p[8] == q[8] && p[9] == q[9] && p[10] == q[10] && p[11] == q[11] && p[12] == q[12];
    assert p[13] == q[13] && p[14] == q[14] && p[15] == q[15] && p[16] == q[16] && p[17] == q[17];
    PrintSignedInjective(f.fromChainId, g.fromChainId, 10);
    PrintSignedInjective(f.toChainId, g.toChainId, 10);
    OptionalNumberInjective(f.depositDeadline, g.depositDeadline);
  }

  /** Two accepted field sets sign the same message exactly when they are the same deal. */
  lemma MessageNamesTheDeal(f: Fields, g: Fields)
    requires BuildMessage(f).Ok? && BuildMessage(g).Ok?
    ensures BuildMessage(f) == BuildMessage(g) <==> Canonical(f) == Canonical(g)
  {
    if BuildMessage(f) == BuildMessage(g) {
      JoinInjective(Parts(f), Parts(g));
      SamePartsSameDeal(f, g);
    }
    if Canonical(f) == Canonical(g) {
      assert Parts(f) == Parts(g);
    }
  }

  /**
   Without the newline check every boundary between two lines can shift: whatever stands before
   and after them, moving the break between two lines gives other lines and the same message.
   The check refuses both.
   */
  lemma UncheckedCollides(before: seq<string>, x: string, y: string, z: string, after: seq<string>)
    ensures var a, b := before + [x + ['\n'] + y, z] + after, before + [x, y + ['\n'] + z] + after;
            a != b && Join(a) == Join(b) && !OneLine(a) && !OneLine(b)
  {
    var a, b := before + [x + ['\n'] + y, z] + after, before + [x, y + ['\n'] + z] + after;
    var k := |before|;
    assert a[k] == x + ['\n'] + y && b[k] == x && |a[k]| > |b[k]|;
    assert a[k][|x|] == '\n' && b[k + 1][|y|] == '\n';
    TwoLines(x + ['\n'] + y, z, after);
    TwoLines(x, y + ['\n'] + z, after);
    assert x + ['\n'] + y + ['\n'] + z == x + ['\n'] + (y + ['\n'] + z);
    JoinAfter(before, [x + ['\n'] + y, z] + after, [x, y + ['\n'] + z] + after);
    assert a == before + ([x + ['\n'] + y, z] + after) && b == before + ([x, y + ['\n'] + z] + after);
  }

  /** Two lines and what follows them, from their own text alone. */
  lemma TwoLines(x: string, y: string, after: seq<string>)
    ensures Join([x, y] + after) == x + ['\n'] + y + (if after == [] then [] else ['\n'] + Join(after))
  {
    assert [x, y] + after == [x] + ([y] + after);
    JoinHead(x, [y] + after);
    if after == [] {
      assert [y] + after == [y];
    } else {
      JoinHead(y, after);
    }
  }

  lemma {:induction false} JoinAfter(before: seq<string>, a: seq<string>, b: seq<string>)
    requires a != [] && b != [] && Join(a) == Join(b)
    ensures Join(before + a) == Join(before + b)
  {
    if before == [] {
      assert before + a == a && before + b == b;
    } else {
      JoinAfter(before[1..], a, b);
      JoinHead(before[0], before[1..] + a);
      JoinHead(before[0], before[1..] + b);
      assert before + a == [before[0]] + (before[1..] + a) && before + b == [before[0]] + (before[1..] + b);
    }
  }

  lemma JoinHead(a: string, rest: seq<string>)
    requires rest != []
    ensures Join([a] + rest) == a + ['\n'] + Join(rest)
  {
    assert ([a] + rest)[1..] == rest;
  }

  /** So two deals that differ only in where `intentId` ends and `quoteId` starts would share a signature. */
  lemma UncheckedDealsCollide(f: Fields, x: string, y: string, z: string)
    ensures var g, h := f.(intentId := x + ['\n'] + y, quoteId := z), f.(intentId := x, quoteId := y + ['\n'] + z);
            && Canonical(g) != Canonical(h) && Join(Parts(g)) == Join(Parts(h))
            && BuildMessage(g).Err? && BuildMessage(h).Err?
  {
    var b, e := x + ['\n'] + y, y + ['\n'] + z;
    var first, rest := [DEPOSIT_ATTESTATION_VERSION], Terms(f);
    UncheckedCollides(first, x, y, z, rest);
    PartsAround(f, b, z);
    PartsAround(f, x, e);
    assert |b| != |x|;
  }

  lemma PartsAround(f: Fields, intentId: string, quoteId: string)
    ensures Parts(f.(intentId := intentId, quoteId := quoteId)) ==
            [DEPOSIT_ATTESTATION_VERSION] + [intentId, quoteId] + Terms(f)
  {
  }

  // The lines.

  /** The lines of a text. */
  function Lines(s: string): (lines: seq<string>)
    ensures lines != []
  {
    if s == [] then [[]]
    else if s[0] == '\n' then [[]] + Lines(s[1..])
    else
      var rest := Lines(s[1..]);
      [[s[0]] + rest[0]] + rest[1..]
  }

  lemma {:induction false} LinesOfLine(line: string, rest: string)
    requires '\n' !in line
    ensures Lines(line + ['\n'] + rest) == [line] + Lines(rest)
    ensures Lines(line) == [line]
  {
    if line == [] {
      assert line + ['\n'] + rest == ['\n'] + rest && (['\n'] + rest)[1..] == rest;
    } else {
      LinesOfLine(line[1..], rest);
      assert (line + ['\n'] + rest)[1..] == line[1..] + ['\n'] + rest;
      assert [line[0]] + line[1..] == line;
    }
  }

  lemma {:induction false} LinesOfJoin(parts: seq<string>)
    requires parts != [] && OneLine(parts)
    ensures Lines(Join(parts)) == parts
  {
    if |parts| == 1 {
      LinesOfLine(parts[0], []);
    } else {
      LinesOfJoin(parts[1..]);
      LinesOfLine(parts[0], Join(parts[1..]));
      assert parts == [parts[0]] + parts[1..];
    }
  }

  /** Eighteen lines, each of them one field in its place. */
  predicate InPlace(lines: seq<string>, f: Fields) {
    && |lines| == 18 && lines[0] == "xochi-deposit-attestation:v3"
    && lines[1] == f.intentId && lines[2] == f.quoteId && lines[3] == NormalizeAddress(f.wallet)
    && lines[4] == PrintSigned(f.fromChainId, 10) && lines[5] == NormalizeAddress(f.fromToken) && lines[6] == f.fromAmount
    && lines[7] == NormalizeAddress(f.depositAddress) && lines[8] == OptionalNumber(f.depositDeadline)
    && lines[9] == OptionalText(f.refundAddress) && lines[10] == PrintSigned(f.toChainId, 10)
    && lines[11] == NormalizePartyCapable(f.toToken) && lines[12] == f.toAmount && lines[13] == f.minToAmount
    && lines[14] == NormalizePartyCapable(f.recipient) && lines[15] == OptionalText(f.stealthSpendingPubKey)
    && lines[16] == OptionalText(f.stealthViewingPubKey) && lines[17] == f.settlementPreference
  }

  lemma PartsInPlace(f: Fields)
    ensures InPlace(Parts(f), f)
  {
    var t := Terms(f);
    assert |t| == 15 && forall i :: 3 <= i < 18 ==> Parts(f)[i] == t[i - 3];
  }

  /** Whoever splits a message at its newlines finds every field on its own line. */
  lemma MessageLines(f: Fields)
    requires BuildMessage(f).Ok?
    ensures InPlace(Lines(BuildMessage(f).value), f)
  {
    LinesOfJoin(Parts(f));
    PartsInPlace(f);
  }

  /** No newline in a text. */
  predicate Plain(s: string) {
    '\n' !in s
  }

  predicate PlainIfAny(s: Option<string>) {
    s.Some? ==> Plain(s.value)
  }

  /** The fourteen texts of the deal, as the caller wrote them. */
  predicate AllPlain(f: Fields) {
    && Plain(f.intentId) && Plain(f.quoteId) && Plain(f.wallet) && Plain(f.fromToken) && Plain(f.fromAmount)
    && Plain(f.depositAddress) && PlainIfAny(f.refundAddress) && Plain(f.toToken) && Plain(f.toAmount) && Plain(f.minToAmount)
    && Plain(f.recipient) && PlainIfAny(f.stealthSpendingPubKey) && PlainIfAny(f.stealthViewingPubKey)
    && Plain(f.settlementPreference)
  }

  lemma NormalizedPlain(s: string)
    ensures Plain(NormalizeAddress(s)) <==> Plain(s)
    ensures Plain(NormalizePartyCapable(s)) <==> Plain(s)
  {
    if !Plain(s) {
      var i :| 0 <= i < |s| && s[i] == '\n';
      assert Lower(s)[i] == '\n';
    }
  }

  lemma OptionalPlain(s: Option<string>)
    ensures Plain(OptionalText(s)) <==> PlainIfAny(s)
  {
    if s.Some? {
      NormalizedPlain(s.value);
    }
  }

  lemma NumbersPlain(f: Fields)
    ensures Plain(PrintSigned(f.fromChainId, 10)) && Plain(PrintSigned(f.toChainId, 10)) && Plain(OptionalNumber(f.depositDeadline))
  {
    PrintSignedPlain(f.fromChainId, 10, '\n');
    PrintSignedPlain(f.toChainId, 10, '\n');
    if f.depositDeadline.Some? {
      PrintSignedPlain(f.depositDeadline.value, 10, '\n');
    }
  }

  lemma EachLine(lines: seq<string>)
    requires |lines| == 18
    ensures OneLine(lines) <==>
            && Plain(lines[0]) && Plain(lines[1]) && Plain(lines[2]) && Plain(lines[3]) && Plain(lines[4]) && Plain(lines[5])
            && Plain(lines[6]) && Plain(lines[7]) && Plain(lines[8]) && Plain(lines[9]) && Plain(lines[10]) && Plain(lines[11])
            && Plain(lines[12]) && Plain(lines[13]) && Plain(lines[14]) && Plain(lines[15]) && Plain(lines[16]) && Plain(lines[17])
  {
  }

  /** A message is built exactly when no text of the deal contains a newline; numbers never do. */
  lemma BuiltExactly(f: Fields)
    ensures BuildMessage(f).Ok? <==> AllPlain(f)
  {
    PartsInPlace(f);
    EachLine(Parts(f));
    NumbersPlain(f);
    NormalizedPlain(f.wallet);
    NormalizedPlain(f.fromToken);
    NormalizedPlain(f.depositAddress);
    NormalizedPlain(f.toToken);
    NormalizedPlain(f.recipient);
    OptionalPlain(f.refundAddress);
    OptionalPlain(f.stealthSpendingPubKey);
    OptionalPlain(f.stealthViewingPubKey);
    assert Plain("xochi-deposit-attestation:v3");
  }

  /** The letters of a character, small. */
  predicate SameLetter(a: char, b: char) {
    a == b || ('A' <= a <= 'Z' && b as int == a as int + 32) || ('A' <= b <= 'Z' && a as int == b as int + 32)
  }

  predicate SameButCase(a: string, b: string) {
    |a| == |b| && forall i :: 0 <= i < |a| ==> SameLetter(a[i], b[i])
  }

  lemma LowerSame(a: string, b: string)
    ensures Lower(a) == Lower(b) <==> SameButCase(a, b)
  {
    if Lower(a) == Lower(b) {
      forall i | 0 <= i < |a| ensures |a| == |b| && SameLetter(a[i], b[i]) {
        assert |Lower(a)| == |Lower(b)| && Lower(a)[i] == Lower(b)[i];
      }
    }
    if SameButCase(a, b) {
      assert forall i :: 0 <= i < |a| ==> Lower(a)[i] == Lower(b)[i];
      assert Lower(a) == Lower(b);
    }
  }

  predicate AllHexAddress(s: string) {
    |s| > 2 && s[0] == '0' && s[1] == 'x'
    && forall i :: 2 <= i < |s| ==> '0' <= s[i] <= '9' || 'a' <= s[i] <= 'f' || 'A' <= s[i] <= 'F'
  }

  predicate ZeroX(s: string) {
    |s| >= 2 && s[0] == '0' && s[1] == 'x'
  }

  /**
   When two spellings are one: addresses after `0x`, whatever their case; a token or recipient only if it
   is hex throughout. Anything else has to be the same text, and an absent value is an empty one.
   */
  lemma SpellingsAgree(a: string, b: string, x: Option<string>)
    ensures NormalizeAddress(a) == NormalizeAddress(b) <==> a == b || (ZeroX(a) && ZeroX(b) && SameButCase(a, b))
    ensures NormalizePartyCapable(a) == NormalizePartyCapable(b) <==>
            a == b || (AllHexAddress(a) && AllHexAddress(b) && SameButCase(a, b))
    ensures OptionalText(x) == (if x.None? then "" else NormalizeAddress(x.value))
  {
    LowerSame(a, b);
    NormalizedPrefix(a);
    NormalizedPrefix(b);
    NormalizedHex(a);
    NormalizedHex(b);
  }

  lemma NormalizedPrefix(a: string)
    ensures ZeroX(NormalizeAddress(a)) <==> ZeroX(a)
  {
  }

  lemma NormalizedHex(a: string)
    ensures AllHexAddress(NormalizePartyCapable(a)) <==> AllHexAddress(a)
    ensures NormalizePartyCapable(a) == if AllHexAddress(a) then Lower(a) else a
  {
    if AllHexAddress(a) {
      assert forall i :: 2 <= i < |a| ==> IsHexDigit(a[i]) && IsHexDigit(Lower(a)[i]);
    } else if Prefixed(a) && |a| > 2 {
      assert exists i :: 2 <= i < |a| && !IsHexDigit(a[i]);
    }
  }
}
