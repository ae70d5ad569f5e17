/** Whole strings: what the two string loops compute, and how decoding and encoding fit together. */
module Utf8Text {
  import opened Sequences
  import opened Utf8

  // ---------------------------------------------------------------- decoding

  /** Every accepted sequence becomes one 16-bit unit; any other byte is skipped by itself. */
  function DecodeText(t: seq<Byte>): seq<Unit>
    decreases |t|
  {
    if t == [] then []
    else
      var d := DecodeOne(t);
      Emitted(d) + DecodeText(t[Consumed(d)..])
  }

  /** A 16-bit unit holds the code modulo 65536. */
  function Emitted(d: Decoded): seq<Unit> {
    if d.Bad? then [] else [d.code % 0x1_0000]
  }

  function Consumed(d: Decoded): nat {
    if d.Bad? then 1 else d.len
  }

  /** Where utf8_mbstowcs stops: at the first NUL, or after n bytes. */
  function TextEnd(s: seq<Byte>, n: int, from: nat): (end: nat)
    requires from <= |s|
    ensures from <= end <= |s|
    ensures forall i :: from <= i < end ==> s[i] != 0
    ensures end == from || end <= n
    ensures end < |s| ==> s[end] == 0 || end >= n
    decreases |s| - from
  {
    if from == |s| || s[from] == 0 || from >= n then from else TextEnd(s, n, from + 1)
  }

  /** The bytes it looks at. */
  function Text(s: seq<Byte>, n: int): (t: seq<Byte>)
    ensures 0 !in t
  {
    s[..TextEnd(s, n, 0)]
  }

  function MbsToWcs(s: seq<Byte>, n: int): seq<Unit> {
    DecodeText(Text(s, n))
  }

  // ---------------------------------------------------------------- encoding

  function EncodeText(ws: seq<Unit>): (bytes: seq<Byte>) {
    if ws == [] then [] else Encode(ws[0]) + EncodeText(ws[1..])
  }

  predicate Ascii(u: Unit) {
    u <= 0x7F
  }

  /** The units utf8_wcstombs encodes: it charges the budget for multi-byte units and for those it skips. */
  function Kept(ws: seq<Unit>, maxlen: int): seq<Unit> {
    if ws == [] || maxlen <= 0 then []
    else if Ascii(ws[0]) then [ws[0]] + Kept(ws[1..], maxlen)
    else if Len(ws[0]) <= maxlen then [ws[0]] + Kept(ws[1..], maxlen - Len(ws[0]))
    else Kept(ws[1..], maxlen - 1)
  }

  /** The units before the terminating 0. */
  function Wide(ws: seq<Unit>): (r: seq<Unit>)
    ensures r <= ws && 0 !in r
    ensures |r| < |ws| ==> ws[|r|] == 0
  {
    if ws == [] || ws[0] == 0 then [] else [ws[0]] + Wide(ws[1..])
  }

  function WcsToMbs(ws: seq<Unit>, maxlen: int): seq<Byte> {
    EncodeText(Kept(Wide(ws), maxlen))
  }

  // ---------------------------------------------------------------- progress

  /** Each unit costs at least one byte. */
  lemma {:induction false} AtMostOneUnitPerByte(t: seq<Byte>)
    ensures |DecodeText(t)| <= |t|
    decreases |t|
  {
    if t != [] {
      AtMostOneUnitPerByte(t[Consumed(DecodeOne(t))..]);
    }
  }

  // ---------------------------------------------------------------- concatenation

  predicate StartsCharacter(b: seq<Byte>) {
    b == [] || !IsTail(b[0])
  }

  /** A string that does not begin with a continuation byte cannot complete a sequence. */
  lemma {:induction false} DecodeTailStable(a: seq<Byte>, b: seq<Byte>, i: nat, k: nat, code: nat)
    requires i <= k && i <= |a| && StartsCharacter(b)
    ensures DecodeTail(a + b, i, k, code) == DecodeTail(a, i, k, code)
    decreases k - i
  {
    if i < k && i < |a| && IsTail(a[i]) {
      DecodeTailStable(a, b, i + 1, k, code * 64 + (a[i] - 0x80));
    }
  }

  lemma DecodeOneStable(a: seq<Byte>, b: seq<Byte>)
    requires a != [] && StartsCharacter(b)
    ensures DecodeOne(a + b) == DecodeOne(a)
  {
    var k := SeqLen(a[0]);
    assert (a + b)[0] == a[0];
    if k > 0 {
      DecodeTailStable(a, b, 1, k, a[0] - LeadBase(k));
    }
  }

  /** One unfolding of the decoder. */
  lemma DecodeStep(t: seq<Byte>, d: Decoded)
    requires t != [] && d == DecodeOne(t)
    ensures DecodeText(t) == Emitted(d) + DecodeText(t[Consumed(d)..])
  {
  }

  /** Decoding distributes over concatenation at a character boundary, whatever comes before it. */
  lemma {:induction false} DecodeConcat(a: seq<Byte>, b: seq<Byte>)
    requires StartsCharacter(b)
    ensures DecodeText(a + b) == DecodeText(a) + DecodeText(b)
    decreases |a|
  {
    if a == [] {
      assert a + b == b;
    } else {
      var d := DecodeOne(a);
      var rest := a[Consumed(d)..];
      DecodeConcat(rest, b);
      calc {
        DecodeText(a + b);
        { DecodeOneStable(a, b); DecodeStep(a + b, d); }
        Emitted(d) + DecodeText((a + b)[Consumed(d)..]);
        { DropConcat(a, b, Consumed(d)); }
        Emitted(d) + DecodeText(rest + b);
        Emitted(d) + (DecodeText(rest) + DecodeText(b));
        { Associative(Emitted(d), DecodeText(rest), DecodeText(b)); }
        Emitted(d) + DecodeText(rest) + DecodeText(b);
        { DecodeStep(a, d); }
        DecodeText(a) + DecodeText(b);
      }
    }
  }

  // ---------------------------------------------------------------- round trip

  lemma UnitInRange(u: Unit)
    ensures u < CODE_LIMIT && Len(u) <= 3 && u % 0x1_0000 == u
  {
  }

  /** The first byte of an encoding starts a character, and is not NUL unless the code is. */
  lemma EncodingStarts(code: nat)
    requires code < CODE_LIMIT
    ensures !IsTail(Encode(code)[0])
    ensures 0 in Encode(code) <==> code == 0
  {
    LeadFits(code);
    assert Encode(code)[1..] == Tail(code, Len(code) - 1);
    forall i | 1 <= i < Len(code) ensures Encode(code)[i] >= 0x80 {
      assert Encode(code)[i] == Tail(code, Len(code) - 1)[i - 1];
    }
    if code == 0 {
      assert Encode(code)[0] == 0;
    }
  }

  lemma EncodeTextStarts(ws: seq<Unit>)
    ensures StartsCharacter(EncodeText(ws))
  {
    if ws != [] {
      EncodingStarts(ws[0]);
      assert EncodeText(ws)[0] == Encode(ws[0])[0];
    }
  }

  /** Decoding what was encoded gives the units back, for every sequence of 16-bit units. */
  lemma {:induction false} DecodeOfEncode(ws: seq<Unit>)
    ensures DecodeText(EncodeText(ws)) == ws
  {
    if ws != [] {
      var rest := EncodeText(ws[1..]);
      DecodesEncoding(ws[0], rest);
      assert (Encode(ws[0]) + rest)[Len(ws[0])..] == rest;
      DecodeOfEncode(ws[1..]);
      UnitInRange(ws[0]);
    }
  }

  lemma {:induction false} EncodeTextNul(ws: seq<Unit>)
    ensures 0 in EncodeText(ws) <==> 0 in ws
  {
    if ws != [] {
      EncodeTextNul(ws[1..]);
      EncodingStarts(ws[0]);
      assert ws == [ws[0]] + ws[1..];
    }
  }

  lemma TextAll(t: seq<Byte>, rest: seq<Byte>, n: int)
    requires 0 !in t && n >= |t| && (n == |t| || rest == [] || rest[0] == 0)
    ensures Text(t + rest, n) == t
  {
    var s := t + rest;
    var end := TextEnd(s, n, 0);
    assert forall i :: 0 <= i < |t| ==> s[i] != 0 by {
      assert forall i :: 0 <= i < |t| ==> t[i] in t;
    }
    assert s[..|t|] == t;
  }

  lemma {:induction false} WideAll(ws: seq<Unit>, rest: seq<Unit>)
    requires 0 !in ws && (rest == [] || rest[0] == 0)
    ensures Wide(ws + rest) == ws
  {
    if ws == [] {
      assert ws + rest == rest;
    } else {
      assert (ws + rest)[1..] == ws[1..] + rest;
      WideAll(ws[1..], rest);
    }
  }

  // ---------------------------------------------------------------- all codes, not only units

  predicate AllCodes(cs: seq<nat>) {
    forall i :: 0 <= i < |cs| ==> cs[i] < 0x8000_0000
  }

  function EncodeCodes(cs: seq<nat>): seq<Byte>
    requires AllCodes(cs)
  {
    if cs == [] then [] else Encode(cs[0]) + EncodeCodes(cs[1..])
  }

  /** What 16 bits can hold of each code. */
  function LowUnits(cs: seq<nat>): seq<Unit> {
    seq(|cs|, i requires 0 <= i < |cs| => cs[i] % 0x1_0000)
  }

  /**
    * The decoder against the reference encoding: where the text begins with the encoding of a
    * code it delivers the code modulo 65536 and goes on behind it; elsewhere it skips one byte.
    */
  lemma DecodeMeaning(t: seq<Byte>, code: nat)
    ensures DecodeText([]) == []
    ensures code < 0x8000_0000 && Encode(code) <= t ==>
              DecodeText(t) == [code % 0x1_0000] + DecodeText(t[|Encode(code)|..])
    ensures t != [] && (forall c: nat :: c < 0x8000_0000 ==> !(Encode(c) <= t)) ==>
              DecodeText(t) == DecodeText(t[1..])
  {
    if code < 0x8000_0000 && Encode(code) <= t {
      ExactMeaning(t, Len(code), code);
      DecodeStep(t, DecodeOne(t));
    }
    if t != [] && (forall c: nat :: c < 0x8000_0000 ==> !(Encode(c) <= t)) {
      if DecodeOne(t).Char? {
        ExactMeaning(t, DecodeOne(t).len, DecodeOne(t).code);
      }
      DecodeStep(t, DecodeOne(t));
    }
  }

  /** Decoding the encodings of any codes gives each of them modulo 65536. */
  lemma {:induction false} DecodeCodes(cs: seq<nat>)
    requires AllCodes(cs)
    ensures DecodeText(EncodeCodes(cs)) == LowUnits(cs)
  {
    if cs != [] {
      DecodeFirst(cs[0], EncodeCodes(cs[1..]));
      DecodeCodes(cs[1..]);
      LowUnitsCons(cs);
    }
  }

  lemma DecodeFirst(code: nat, rest: seq<Byte>)
    requires code < 0x8000_0000
    ensures DecodeText(Encode(code) + rest) == [code % 0x1_0000] + DecodeText(rest)
  {
    var t := Encode(code) + rest;
    DecodeMeaning(t, code);
    assert t[|Encode(code)|..] == rest;
  }

  lemma LowUnitsCons(cs: seq<nat>)
    requires cs != []
    ensures LowUnits(cs) == [cs[0] % 0x1_0000] + LowUnits(cs[1..])
  {
  }

  lemma {:induction false} EncodeCodesNul(cs: seq<nat>)
    requires AllCodes(cs)
    ensures 0 in EncodeCodes(cs) <==> 0 in cs
  {
    if cs != [] {
      EncodeCodesNul(cs[1..]);
      EncodingStarts(cs[0]);
      assert cs == [cs[0]] + cs[1..];
    }
  }

  /** The same for the loop, which stops at the limit or at a NUL. */
  lemma DecodesCodes(cs: seq<nat>, after: seq<Byte>, n: int)
    requires AllCodes(cs) && 0 !in cs && n >= |EncodeCodes(cs)|
    requires n == |EncodeCodes(cs)| || after == [] || after[0] == 0
    ensures MbsToWcs(EncodeCodes(cs) + after, n) == LowUnits(cs)
  {
    EncodeCodesNul(cs);
    TextAll(EncodeCodes(cs), after, n);
    DecodeCodes(cs);
  }

  // ---------------------------------------------------------------- the budget

  /** The bytes the budget is charged for. */
  function MultiBytes(ws: seq<Unit>): nat {
    if ws == [] then 0 else (if Ascii(ws[0]) then 0 else Len(ws[0])) + MultiBytes(ws[1..])
  }

  function AsciiUnits(ws: seq<Unit>): nat {
    if ws == [] then 0 else (if Ascii(ws[0]) then 1 else 0) + AsciiUnits(ws[1..])
  }

  lemma {:induction false} EncodedLength(ws: seq<Unit>)
    ensures |EncodeText(ws)| == MultiBytes(ws) + AsciiUnits(ws)
  {
    if ws != [] {
      EncodedLength(ws[1..]);
    }
  }

  /** sub is what is left of ws after leaving out some units, in order. */
  predicate Subsequence(sub: seq<Unit>, ws: seq<Unit>) {
    if sub == [] then true
    else if ws == [] then false
    else if sub[0] == ws[0] && Subsequence(sub[1..], ws[1..]) then true
    else Subsequence(sub, ws[1..])
  }

  /** The units the loop has read by the time it stops. */
  function Visited(ws: seq<Unit>, maxlen: int): (k: nat)
    ensures k <= |ws|
  {
    if ws == [] || maxlen <= 0 then 0
    else if Ascii(ws[0]) then 1 + Visited(ws[1..], maxlen)
    else if Len(ws[0]) <= maxlen then 1 + Visited(ws[1..], maxlen - Len(ws[0]))
    else 1 + Visited(ws[1..], maxlen - 1)
  }

  lemma SubsequenceTake(x: Unit, sub: seq<Unit>, ws: seq<Unit>)
    requires Subsequence(sub, ws)
    ensures Subsequence([x] + sub, [x] + ws)
  {
    assert ([x] + sub)[1..] == sub && ([x] + ws)[1..] == ws;
  }

  lemma SubsequenceSkip(x: Unit, sub: seq<Unit>, ws: seq<Unit>)
    requires Subsequence(sub, ws)
    ensures Subsequence(sub, [x] + ws)
  {
    assert ([x] + ws)[1..] == ws;
  }

  lemma {:induction false} KeptIsSubsequence(ws: seq<Unit>, maxlen: int)
    ensures Subsequence(Kept(ws, maxlen), ws[..Visited(ws, maxlen)])
  {
    if ws != [] && maxlen > 0 {
      var x, rest := ws[0], ws[1..];
      var left := if Ascii(x) then maxlen else if Len(x) <= maxlen then maxlen - Len(x) else maxlen - 1;
      KeptIsSubsequence(rest, left);
      var seen := rest[..Visited(rest, left)];
      assert ws[..Visited(ws, maxlen)] == [x] + seen;
      SubsequenceTake(x, Kept(rest, left), seen);
      SubsequenceSkip(x, Kept(rest, left), seen);
    }
  }

  lemma {:induction false} BudgetIsShared(ws: seq<Unit>, maxlen: nat)
    ensures var kept := Kept(ws, maxlen); var visited := Visited(ws, maxlen);
            && MultiBytes(kept) + (visited - |kept|) <= maxlen
            && (visited < |ws| ==> MultiBytes(kept) + (visited - |kept|) == maxlen)
  {
    if ws != [] && maxlen > 0 {
      var x, rest := ws[0], ws[1..];
      var left := if Ascii(x) then maxlen else if Len(x) <= maxlen then maxlen - Len(x) else maxlen - 1;
      BudgetIsShared(rest, left);
      assert ([x] + Kept(rest, left))[1..] == Kept(rest, left);
    }
  }

  /**
    * Under any budget the output is the encoding of a subsequence, so it decodes to exactly
    * that. Multi-byte output and skipped units share the budget; ASCII output is free. The loop
    * reads every unit unless the budget is used up.
    */
  lemma BudgetTheorem(ws: seq<Unit>, maxlen: nat)
    ensures var kept := Kept(ws, maxlen); var visited := Visited(ws, maxlen);
            && Subsequence(kept, ws[..visited])
            && MultiBytes(kept) + (visited - |kept|) <= maxlen
            && (visited < |ws| ==> MultiBytes(kept) + (visited - |kept|) == maxlen)
            && |EncodeText(kept)| == MultiBytes(kept) + AsciiUnits(kept)
            && DecodeText(EncodeText(kept)) == kept
  {
    KeptIsSubsequence(ws, maxlen);
    BudgetIsShared(ws, maxlen);
    EncodedLength(Kept(ws, maxlen));
    DecodeOfEncode(Kept(ws, maxlen));
  }

  /** Nothing is left out if and only if the multi-byte units fit, with room to spare before a last ASCII unit. */
  lemma {:induction false} KeepsAll(ws: seq<Unit>, maxlen: int)
    ensures Kept(ws, maxlen) == ws <==>
            ws == [] || MultiBytes(ws) < maxlen || (MultiBytes(ws) == maxlen && !Ascii(ws[|ws| - 1]))
  {
    if ws != [] {
      var rest := ws[1..];
      LastCharged(ws);
      LastCharged(rest);
      assert rest != [] ==> rest[|rest| - 1] == ws[|ws| - 1];
      assert ws == [ws[0]] + rest;
      KeptIsShorter(rest, maxlen - 1);
      if Ascii(ws[0]) {
        KeepsAll(rest, maxlen);
      } else {
        KeepsAll(rest, maxlen - Len(ws[0]));
      }
    }
  }

  /** A multi-byte unit at the end is charged for. */
  lemma {:induction false} LastCharged(ws: seq<Unit>)
    ensures ws != [] && !Ascii(ws[|ws| - 1]) ==> MultiBytes(ws) > 0
  {
    if |ws| > 1 {
      LastCharged(ws[1..]);
    }
  }

  lemma {:induction false} KeptIsShorter(ws: seq<Unit>, maxlen: int)
    ensures |Kept(ws, maxlen)| <= |ws|
  {
    if ws != [] && maxlen > 0 {
      KeptIsShorter(ws[1..], maxlen);
      KeptIsShorter(ws[1..], maxlen - Len(ws[0]));
      KeptIsShorter(ws[1..], maxlen - 1);
    }
  }

  // ---------------------------------------------------------------- round trips of the two loops

  /** With room for its encoding, a zero-terminated string of units is encoded as a whole. */
  lemma EncodesWhole(ws: seq<Unit>, more: seq<Unit>, maxlen: int)
    requires 0 !in ws && (more == [] || more[0] == 0) && maxlen >= |EncodeText(ws)|
    ensures WcsToMbs(ws + more, maxlen) == EncodeText(ws)
  {
    WideAll(ws, more);
    EncodedLength(ws);
    KeepsAll(ws, maxlen);
    if ws != [] && MultiBytes(ws) == maxlen {
      NoAscii(ws, |ws| - 1);
    }
  }

  /** The encoding, cut off by the limit or by a NUL, decodes to the string. */
  lemma DecodesWhole(ws: seq<Unit>, after: seq<Byte>, n: int)
    requires 0 !in ws && n >= |EncodeText(ws)|
    requires n == |EncodeText(ws)| || after == [] || after[0] == 0
    ensures MbsToWcs(EncodeText(ws) + after, n) == ws
  {
    EncodeTextNul(ws);
    TextAll(EncodeText(ws), after, n);
    DecodeOfEncode(ws);
  }

  /** Encoding a string of units with enough room and decoding the result gives it back. */
  lemma RoundTrip(ws: seq<Unit>, more: seq<Unit>, maxlen: int, after: seq<Byte>, n: int)
    requires 0 !in ws && (more == [] || more[0] == 0)
    requires maxlen >= |EncodeText(ws)| && n >= |EncodeText(ws)|
    requires n == |EncodeText(ws)| || after == [] || after[0] == 0
    ensures WcsToMbs(ws + more, maxlen) == EncodeText(ws)
    ensures MbsToWcs(EncodeText(ws) + after, n) == ws
  {
    EncodesWhole(ws, more, maxlen);
    DecodesWhole(ws, after, n);
  }

  lemma {:induction false} NoAscii(ws: seq<Unit>, i: nat)
    requires i < |ws| && AsciiUnits(ws) == 0
    ensures !Ascii(ws[i])
  {
    if i > 0 {
      NoAscii(ws[1..], i - 1);
    }
  }

  /** The string is made of accepted sequences of at most three bytes. */
  predicate Canonical(t: seq<Byte>)
    decreases |t|
  {
    t == [] || (DecodeOne(t).Char? && DecodeOne(t).len <= 3 && Canonical(t[DecodeOne(t).len..]))
  }

  /** Re-encoding what was decoded gives the same bytes exactly for those strings. */
  lemma {:induction false} EncodeOfDecode(t: seq<Byte>)
    ensures EncodeText(DecodeText(t)) == t <==> Canonical(t)
    decreases |t|
  {
    if Canonical(t) {
      CanonicalReencodes(t);
    }
    if EncodeText(DecodeText(t)) == t {
      EncodingsAreCanonical(DecodeText(t));
    }
  }

  lemma EncodeTextCons(u: Unit, ws: seq<Unit>)
    ensures EncodeText([u] + ws) == Encode(u) + EncodeText(ws)
  {
    assert ([u] + ws)[1..] == ws;
  }

  /** At most three bytes hold a 16-bit code. */
  lemma ShortCode(t: seq<Byte>)
    requires t != [] && DecodeOne(t).Char? && DecodeOne(t).len <= 3
    ensures DecodeOne(t).code < 0x1_0000 && Emitted(DecodeOne(t)) == [DecodeOne(t).code]
  {
  }

  /** The first character of a string, as the encoder would write it. */
  lemma HeadBytes(t: seq<Byte>, d: Decoded)
    requires t != [] && d == DecodeOne(t) && d.Char?
    ensures t == Encode(d.code) + t[d.len..]
  {
    EncodesDecoding(t);
  }

  lemma HeadUnit(t: seq<Byte>, d: Decoded)
    requires t != [] && d == DecodeOne(t) && d.Char? && d.len <= 3
    ensures d.code < 0x1_0000 && DecodeText(t) == [d.code] + DecodeText(t[d.len..])
  {
    ShortCode(t);
    DecodeStep(t, d);
  }

  lemma {:induction false} CanonicalReencodes(t: seq<Byte>)
    requires Canonical(t)
    ensures EncodeText(DecodeText(t)) == t
    decreases |t|
  {
    if t != [] {
      var d := DecodeOne(t);
      HeadBytes(t, d);
      HeadUnit(t, d);
      CanonicalReencodes(t[d.len..]);
      EncodeTextCons(d.code, DecodeText(t[d.len..]));
    }
  }

  lemma {:induction false} EncodingsAreCanonical(ws: seq<Unit>)
    ensures Canonical(EncodeText(ws))
  {
    if ws != [] {
      var rest := EncodeText(ws[1..]);
      DecodesEncoding(ws[0], rest);
      assert (Encode(ws[0]) + rest)[Len(ws[0])..] == rest;
      UnitInRange(ws[0]);
      EncodingsAreCanonical(ws[1..]);
    }
  }

  /**
    * The same for the two loops: decoding a string and encoding the result with room for the
    * bytes gives the bytes back exactly for those strings.
    */
  lemma BytesRoundTrip(t: seq<Byte>, after: seq<Byte>, n: int, more: seq<Unit>, maxlen: int)
    requires 0 !in t && n >= |t| && (n == |t| || after == [] || after[0] == 0)
    requires (more == [] || more[0] == 0) && maxlen >= |t|
    ensures WcsToMbs(MbsToWcs(t + after, n) + more, maxlen) == t <==> Canonical(t)
  {
    var us := DecodeText(t);
    TextAll(t, after, n);
    if Canonical(t) {
      CanonicalReencodes(t);
      EncodeTextNul(us);
      EncodesWhole(us, more, maxlen);
    }
    EncodingsAreCanonical(Kept(Wide(us + more), maxlen));
  }

  // ---------------------------------------------------------------- where a unit 0 comes from

  /**
    * The string begins with an accepted sequence of four or more bytes whose low 16 bits are 0:
    * the last two bytes carry the digit 0, and the low half of the one before is 0 as well.
    */
  predicate ZeroForm(t: seq<Byte>) {
    && t != [] && SeqLen(t[0]) >= 4 && DecodeOne(t).Char?
    && var k := SeqLen(t[0]);
       t[k - 1] == 0x80 && t[k - 2] == 0x80 && t[k - 3] % 16 == 0
  }

  /** The low 16 bits of a code are in its last three bytes. */
  lemma LowBits(p: nat, tail: seq<Byte>)
    requires AllTail(tail) && |tail| >= 3
    ensures var m := |tail|;
            Value(p, tail) % 0x1_0000 == 0 <==>
            tail[m - 1] == 0x80 && tail[m - 2] == 0x80 && tail[m - 3] % 16 == 0
  {
    var m := |tail|;
    var v := Value(p, tail[..m - 3]);
    var a, b, c := tail[m - 3] - 0x80, tail[m - 2] - 0x80, tail[m - 1] - 0x80;
    assert tail[..m - 1][..m - 2] == tail[..m - 2] && tail[..m - 2][..m - 3] == tail[..m - 3];
    assert Value(p, tail[..m - 2]) == v * 64 + a;
    assert Value(p, tail[..m - 1]) == (v * 64 + a) * 64 + b;
    assert Value(p, tail) == ((v * 64 + a) * 64 + b) * 64 + c;
    LowDigits(v, a, b, c);
  }

  lemma LowDigits(v: nat, a: nat, b: nat, c: nat)
    requires a < 64 && b < 64 && c < 64
    ensures (((v * 64 + a) * 64 + b) * 64 + c) % 0x1_0000 == 0 <==> c == 0 && b == 0 && a % 16 == 0
  {
    var q := v * 4 + a / 16;
    var r := a % 16 * 4096 + b * 64 + c;
    assert ((v * 64 + a) * 64 + b) * 64 + c == q * 0x1_0000 + r;
    assert r < 0x1_0000;
  }

  lemma HeadZero(t: seq<Byte>)
    requires t != [] && t[0] != 0
    ensures Emitted(DecodeOne(t)) == [0] <==> ZeroForm(t)
  {
    var d := DecodeOne(t);
    if d.Char? {
      OneMeaning(t);
      var tail := t[1..d.len];
      if d.len >= 4 {
        LowBits(t[0] - LeadBase(d.len), tail);
        assert tail[d.len - 2] == t[d.len - 1] && tail[d.len - 3] == t[d.len - 2] && tail[d.len - 4] == t[d.len - 3];
      } else {
        ShortCode(t);
        assert d.len == 1 ==> tail == [] && d.code == t[0];
      }
    }
  }

  /** No sequence hides inside another one: a part that starts a character is decoded as it stands. */
  lemma DecodedFrom(t: seq<Byte>, i: nat)
    requires i < |t| && !IsTail(t[i])
    ensures DecodeText(t) == DecodeText(t[..i]) + DecodeText(t[i..])
  {
    var a, b := t[..i], t[i..];
    assert t == a + b && b[0] == t[i];
    DecodeConcat(a, b);
  }

  /** In a string without NUL a unit 0 comes out if and only if such a sequence stands somewhere in it. */
  lemma {:induction false} ZeroUnit(t: seq<Byte>)
    requires 0 !in t
    ensures 0 in DecodeText(t) <==> exists i :: 0 <= i < |t| && ZeroForm(t[i..])
    decreases |t|
  {
    if i :| 0 <= i < |t| && ZeroForm(t[i..]) {
      ZeroFormDecodes(t, i);
    }
    if 0 in DecodeText(t) {
      ZeroFormFound(t);
    }
  }

  lemma ZeroFormDecodes(t: seq<Byte>, i: nat)
    requires i < |t| && ZeroForm(t[i..])
    ensures 0 in DecodeText(t)
  {
    var rest := t[i..];
    HeadZero(rest);
    DecodeStep(rest, DecodeOne(rest));
    assert DecodeText(rest)[0] == 0;
    DecodedFrom(t, i);
  }

  lemma {:induction false} ZeroFormFound(t: seq<Byte>)
    requires 0 !in t && 0 in DecodeText(t)
    ensures exists i :: 0 <= i < |t| && ZeroForm(t[i..])
    decreases |t|
  {
    var d := DecodeOne(t);
    HeadZero(t);
    if ZeroForm(t) {
      assert t[0..] == t;
    } else {
      DecodeStep(t, d);
      ZeroFormFound(t[Consumed(d)..]);
      ZeroFormLater(t, Consumed(d));
    }
  }

  lemma ZeroFormLater(t: seq<Byte>, k: nat)
    requires k <= |t| && exists i :: 0 <= i < |t[k..]| && ZeroForm(t[k..][i..])
    ensures exists i :: 0 <= i < |t| && ZeroForm(t[i..])
  {
    var i :| 0 <= i < |t[k..]| && ZeroForm(t[k..][i..]);
    assert t[i + k..] == t[k..][i..];
  }

  /**
    * Decoding, encoding with room and decoding again: the decoded units up to the first 0. These
    * are all of them if and only if no unit is 0, that is, if no accepted sequence in the text
    * has 0 in its low 16 bits.
    */
  lemma DecodeEncodeDecode(s: seq<Byte>, n: int, maxlen: int)
    requires maxlen >= |EncodeText(Wide(MbsToWcs(s, n)))|
    ensures var us := MbsToWcs(s, n);
            var bytes := WcsToMbs(us, maxlen);
            && MbsToWcs(bytes, |bytes|) == Wide(us)
            && (MbsToWcs(bytes, |bytes|) == us <==> 0 !in us)
            && (0 !in us <==> forall i :: 0 <= i < |Text(s, n)| ==> !ZeroForm(Text(s, n)[i..]))
  {
    var us := MbsToWcs(s, n);
    var ws := Wide(us);
    RoundTrip(ws, us[|ws|..], maxlen, [], |EncodeText(ws)|);
    assert ws + us[|ws|..] == us;
    assert EncodeText(ws) + [] == EncodeText(ws);
    if 0 !in us {
      assert |ws| == |us|;
    }
    ZeroUnit(Text(s, n));
  }
}
