/**
  The encoding of one character: the 1-to-6-byte scheme of section 2 of RFC 2279, stated twice.
  Encode is the reference, digit by digit in base 64. DecodeOne is what a decoder has to compute.
*/
module Utf8 {

  type Byte = b: int | 0 <= b < 0x100
  type Unit = u: int | 0 <= u < 0x1_0000

  const CODE_LIMIT := 0x8000_0000

  // ---------------------------------------------------------------- the reference encoding

  /** The number of bytes of a code. */
  function Len(code: nat): (k: nat)
    ensures 1 <= k <= 6
  {
    if code < 0x80 then 1
    else if code < 0x800 then 2
    else if code < 0x1_0000 then 3
    else if code < 0x20_0000 then 4
    else if code < 0x400_0000 then 5
    else 6
  }

  /** The marker bits of the first byte of a k-byte sequence. */
  function LeadBase(k: nat): nat {
    if k <= 1 then 0
    else if k == 2 then 0xC0
    else if k == 3 then 0xE0
    else if k == 4 then 0xF0
    else if k == 5 then 0xF8
    else 0xFC
  }

  /** What is left of a code above its m low base-64 digits. */
  function High(code: nat, m: nat): nat {
    if m == 0 then code else High(code / 64, m - 1)
  }

  /** The m low base-64 digits, each in a continuation byte. */
  function Tail(code: nat, m: nat): (bytes: seq<Byte>)
    ensures |bytes| == m
    ensures forall i :: 0 <= i < m ==> IsTail(bytes[i])
  {
    if m == 0 then [] else Tail(code / 64, m - 1) + [0x80 + code % 64]
  }

  predicate IsTail(b: Byte) {
    0x80 <= b < 0xC0
  }

  function Encode(code: nat): (bytes: seq<Byte>)
    requires code < CODE_LIMIT
    ensures |bytes| == Len(code)
  {
    var k := Len(code);
    LeadFits(code);
    [LeadBase(k) + High(code, k - 1)] + Tail(code, k - 1)
  }

  /** The payload of the first byte fits below its marker bits. */
  lemma LeadFits(code: nat)
    requires code < CODE_LIMIT
    ensures var k := Len(code); var lead := LeadBase(k) + High(code, k - 1);
            lead < 0x100 && SeqLen(lead) == k
  {
    var k := Len(code);
    assert High(code, 1) == code / 64;
    assert High(code, 2) == High(code / 64, 1) == High(code / 64 / 64, 0) == code / 64 / 64;
    HighThree(code);
    HighThree(code / 64);
    HighThree(code / 64 / 64);
    assert High(code, 4) == High(code / 64, 3);
    assert High(code, 5) == High(code / 64, 4) == High(code / 64 / 64, 3);
  }

  lemma HighThree(code: nat)
    ensures High(code, 3) == code / 64 / 64 / 64
  {
    assert High(code, 3) == High(code / 64, 2) == High(code / 64 / 64, 1) == High(code / 64 / 64 / 64, 0);
  }

  lemma HighFourFive(code: nat)
    ensures High(code, 4) == code / 64 / 64 / 64 / 64
    ensures High(code, 5) == code / 64 / 64 / 64 / 64 / 64
  {
    HighThree(code / 64);
    assert High(code, 4) == High(code / 64, 3);
    HighThree(code / 64 / 64);
    assert High(code, 5) == High(code / 64, 4) == High(code / 64 / 64, 3);
  }

  /** The table of the RFC, row by row: the first byte. */
  lemma FirstByteTable(code: nat)
    requires code < 0x8000_0000
    ensures Encode(code)[0] ==
            if code < 0x80 then code
            else if code < 0x800 then 0xC0 + code / 64
            else if code < 0x1_0000 then 0xE0 + code / 64 / 64
            else if code < 0x20_0000 then 0xF0 + code / 64 / 64 / 64
            else if code < 0x400_0000 then 0xF8 + code / 64 / 64 / 64 / 64
            else 0xFC + code / 64 / 64 / 64 / 64 / 64
  {
    LeadFits(code);
    assert High(code, 1) == code / 64;
    assert High(code, 2) == High(code / 64, 1);
    HighThree(code);
    HighFourFive(code);
  }

  /** And the rest: from the last byte back, the base-64 digits of the code. */
  lemma TailTable(code: nat, m: nat)
    requires code < 0x8000_0000 && 0 < m < |Encode(code)|
    ensures var k := |Encode(code)|;
            Encode(code)[k - m] == 0x80 + High(code, m - 1) % 64
  {
    var k := Len(code);
    LeadFits(code);
    TailDigit(code, k - 1, m);
    assert Encode(code)[k - m] == Tail(code, k - 1)[k - 1 - m];
  }

  lemma {:induction false} TailDigit(code: nat, n: nat, m: nat)
    requires 0 < m <= n
    ensures Tail(code, n)[n - m] == 0x80 + High(code, m - 1) % 64
  {
    if m > 1 {
      TailDigit(code / 64, n - 1, m - 1);
    }
  }

  // ---------------------------------------------------------------- the decoder's view

  /** The length a first byte announces, or 0 if no sequence starts with it. */
  function SeqLen(lead: Byte): (k: nat)
    ensures k <= 6
  {
    if lead < 0x80 then 1
    else if lead < 0xC0 then 0
    else if lead < 0xE0 then 2
    else if lead < 0xF0 then 3
    else if lead < 0xF8 then 4
    else if lead < 0xFC then 5
    else if lead < 0xFE then 6
    else 0
  }

  /** The smallest code that needs k bytes. */
  function MinCode(k: nat): nat {
    if k <= 1 then 0
    else if k == 2 then 0x80
    else if k == 3 then 0x800
    else if k == 4 then 0x1_0000
    else if k == 5 then 0x20_0000
    else 0x400_0000
  }

  /** The number with high part p and the digits of the continuation bytes below it. */
  function Value(p: nat, tail: seq<Byte>): nat
    requires AllTail(tail)
  {
    if tail == [] then p
    else
      var m := |tail| - 1;
      Value(p, tail[..m]) * 64 + (tail[m] - 0x80)
  }

  predicate AllTail(bytes: seq<Byte>) {
    forall i :: 0 <= i < |bytes| ==> IsTail(bytes[i])
  }

  datatype Decoded = Bad | Char(len: nat, code: nat)

  /** The character a non-empty byte string begins with. */
  function DecodeOne(s: seq<Byte>): (d: Decoded)
    requires s != []
    ensures d.Char? ==> 1 <= d.len <= |s| && d.len == SeqLen(s[0])
    ensures d.Char? ==> d.code < CODE_LIMIT && Len(d.code) == d.len
  {
    var k := SeqLen(s[0]);
    if k == 0 then Bad
    else
      DecodeTailMeaning(s, 1, k, s[0] - LeadBase(k));
      CodeInRange(s[0], if k <= |s| then s[1..k] else []);
      DecodeTail(s, 1, k, s[0] - LeadBase(k))
  }

  /** The bytes from i to k must be continuation bytes, and the code must need k bytes. */
  function DecodeTail(s: seq<Byte>, i: nat, k: nat, code: nat): Decoded
    requires i <= k
    decreases k - i
  {
    if i == k then (if k > |s| || code < MinCode(k) then Bad else Char(k, code))
    else if i >= |s| || !IsTail(s[i]) then Bad
    else DecodeTail(s, i + 1, k, code * 64 + (s[i] - 0x80))
  }

  /** The first digit can be folded into the high part. */
  lemma {:induction false} ValueFront(p: nat, b: Byte, tail: seq<Byte>)
    requires IsTail(b) && AllTail(tail)
    ensures AllTail([b] + tail) && Value(p, [b] + tail) == Value(p * 64 + (b - 0x80), tail)
  {
    if tail != [] {
      var m := |tail| - 1;
      ValueFront(p, b, tail[..m]);
      assert ([b] + tail)[..m + 1] == [b] + tail[..m];
    } else {
      assert [b] + tail == [b];
      assert Value(p, [b][..0]) == p;
    }
  }

  /** The scan, said at once: announced length, continuation bytes, shortest form. */
  lemma {:induction false} DecodeTailMeaning(s: seq<Byte>, i: nat, k: nat, code: nat)
    requires i <= k
    ensures DecodeTail(s, i, k, code) ==
            if k > |s| || !AllTail(s[i..k]) then Bad
            else if Value(code, s[i..k]) < MinCode(k) then Bad
            else Char(k, Value(code, s[i..k]))
    decreases k - i
  {
    if i < k <= |s| {
      assert s[i..k] == [s[i]] + s[i + 1..k];
      if IsTail(s[i]) {
        DecodeTailMeaning(s, i + 1, k, code * 64 + (s[i] - 0x80));
        if AllTail(s[i + 1..k]) {
          ValueFront(code, s[i], s[i + 1..k]);
        } else {
          assert !AllTail(s[i..k]) by {
            var j :| 0 <= j < k - i - 1 && !IsTail(s[i + 1..k][j]);
            assert s[i..k][j + 1] == s[i + 1..k][j];
          }
        }
      } else {
        assert s[i..k][0] == s[i];
      }
    } else if i < k {
      TooFewBytes(s, i, k, code);
    } else if k <= |s| {
      assert s[i..k] == [];
    }
  }

  lemma {:induction false} TooFewBytes(s: seq<Byte>, i: nat, k: nat, code: nat)
    requires i <= k && k > |s|
    ensures DecodeTail(s, i, k, code) == Bad
    decreases k - i
  {
    if i < k && i < |s| && IsTail(s[i]) {
      TooFewBytes(s, i + 1, k, code * 64 + (s[i] - 0x80));
    }
  }

  /** What DecodeOne accepts, and what it makes of it. */
  lemma OneMeaning(s: seq<Byte>)
    requires s != []
    ensures var k := SeqLen(s[0]);
            DecodeOne(s) ==
            if k == 0 || k > |s| || !AllTail(s[1..k]) then Bad
            else if Value(s[0] - LeadBase(k), s[1..k]) < MinCode(k) then Bad
            else Char(k, Value(s[0] - LeadBase(k), s[1..k]))
  {
    var k := SeqLen(s[0]);
    if k > 0 {
      DecodeTailMeaning(s, 1, k, s[0] - LeadBase(k));
    }
  }

  // ---------------------------------------------------------------- the two agree

  lemma {:induction false} ValueOfDigits(code: nat, m: nat)
    ensures Value(High(code, m), Tail(code, m)) == code
  {
    if m > 0 {
      ValueOfDigits(code / 64, m - 1);
      assert Tail(code, m)[..m - 1] == Tail(code / 64, m - 1);
    }
  }

  lemma {:induction false} DigitsOfValue(p: nat, tail: seq<Byte>)
    requires AllTail(tail)
    ensures High(Value(p, tail), |tail|) == p
    ensures Tail(Value(p, tail), |tail|) == tail
  {
    if tail != [] {
      var m := |tail| - 1;
      var v := Value(p, tail[..m]);
      DigitsOfValue(p, tail[..m]);
      assert (v * 64 + (tail[m] - 0x80)) / 64 == v;
      assert tail == tail[..m] + [tail[m]];
    }
  }

  function Pow64(m: nat): nat {
    if m == 0 then 1 else 64 * Pow64(m - 1)
  }

  /** The high part weighs a power of 64; the digits stay below that. */
  lemma {:induction false} ValueBounds(p: nat, tail: seq<Byte>)
    requires AllTail(tail)
    ensures p * Pow64(|tail|) <= Value(p, tail) < p * Pow64(|tail|) + Pow64(|tail|)
  {
    if tail != [] {
      var m := |tail| - 1;
      ValueBounds(p, tail[..m]);
      assert p * Pow64(m + 1) == 64 * (p * Pow64(m));
    }
  }

  lemma Powers()
    ensures Pow64(0) == 1 && Pow64(1) == 64 && Pow64(2) == 4096 && Pow64(3) == 262144
    ensures Pow64(4) == 16777216 && Pow64(5) == 1073741824
  {
    assert Pow64(2) == 64 * Pow64(1);
    assert Pow64(3) == 64 * Pow64(2);
    assert Pow64(4) == 64 * Pow64(3);
    assert Pow64(5) == 64 * Pow64(4);
  }

  /** A shortest-form sequence of k bytes holds a code of length k. */
  lemma LenOfValue(lead: Byte, tail: seq<Byte>)
    requires var k := SeqLen(lead);
             k > 0 && AllTail(tail) && |tail| == k - 1 && Value(lead - LeadBase(k), tail) >= MinCode(k)
    ensures var k := SeqLen(lead); var code := Value(lead - LeadBase(k), tail);
            code < CODE_LIMIT && Len(code) == k
  {
    Powers();
    ValueBounds(lead - LeadBase(SeqLen(lead)), tail);
  }

  lemma CodeInRange(lead: Byte, tail: seq<Byte>)
    ensures var k := SeqLen(lead);
            k > 0 && AllTail(tail) && |tail| == k - 1 && Value(lead - LeadBase(k), tail) >= MinCode(k) ==>
              var code := Value(lead - LeadBase(k), tail); code < CODE_LIMIT && Len(code) == k
  {
    var k := SeqLen(lead);
    if k > 0 && AllTail(tail) && |tail| == k - 1 && Value(lead - LeadBase(k), tail) >= MinCode(k) {
      LenOfValue(lead, tail);
    }
  }

  /** What the encoder writes, the decoder reads, whatever follows. */
  lemma DecodesEncoding(code: nat, rest: seq<Byte>)
    requires code < 0x8000_0000
    ensures DecodeOne(Encode(code) + rest) == Char(Len(code), code)
  {
    var k := Len(code);
    var s := Encode(code) + rest;
    LeadFits(code);
    assert s[0] == LeadBase(k) + High(code, k - 1);
    assert s[1..k] == Tail(code, k - 1);
    ValueOfDigits(code, k - 1);
    OneMeaning(s);
  }

  /** What the decoder reads is what the encoder would have written. */
  lemma EncodesDecoding(s: seq<Byte>)
    requires s != [] && DecodeOne(s).Char?
    ensures var d := DecodeOne(s);
            Encode(d.code) == s[..d.len]
  {
    var d := DecodeOne(s);
    var tail := s[1..d.len];
    OneMeaning(s);
    DigitsOfValue(s[0] - LeadBase(d.len), tail);
    assert s[..d.len] == [s[0]] + tail;
  }

  /**
    * The exact meaning of the decoder: it accepts k bytes for a code if and only if they are
    * the encoding of that code, and the code is in range.
    */
  lemma ExactMeaning(s: seq<Byte>, k: nat, code: nat)
    requires s != []
    ensures DecodeOne(s) == Char(k, code) <==> code < 0x8000_0000 && Len(code) == k && Encode(code) <= s
  {
    if code < CODE_LIMIT && Encode(code) <= s {
      DecodesEncoding(code, s[Len(code)..]);
      assert s == Encode(code) + s[Len(code)..];
    }
    if DecodeOne(s) == Char(k, code) {
      EncodesDecoding(s);
    }
  }

  /** No encoding is a prefix of another one. */
  lemma PrefixFree(a: nat, b: nat)
    requires a < 0x8000_0000 && b < 0x8000_0000 && Encode(a) <= Encode(b)
    ensures a == b
  {
    ExactMeaning(Encode(b), Len(a), a);
    ExactMeaning(Encode(b), Len(b), b);
  }
}
