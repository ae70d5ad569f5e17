/**
  The four codec functions of src/nls_base.c on arrays, with the table, masks and shifts of the
  source. A C `long` is a non-negative integer here; the accumulator stays below 2 to the 44.
*/
module Utf8Codec {
  import opened Bits
  import opened Sequences
  import opened Utf8
  import opened Utf8Text

  datatype Row = Row(cmask: nat, cval: nat, shift: nat, lmask: nat, lval: nat)

  /** utf8_table without its end marker. */
  const TABLE: seq<Row> := [
    Row(0x80, 0x00, 0, 0x7F, 0),
    Row(0xE0, 0xC0, 6, 0x7FF, 0x80),
    Row(0xF0, 0xE0, 12, 0xFFFF, 0x800),
    Row(0xF8, 0xF0, 18, 0x1F_FFFF, 0x1_0000),
    Row(0xFC, 0xF8, 24, 0x3FF_FFFF, 0x20_0000),
    Row(0xFE, 0xFC, 30, 0x7FFF_FFFF, 0x400_0000)]

  // ---------------------------------------------------------------- what the masks mean

  /** The number of code bits of a k-byte sequence. */
  function CodeBits(k: nat): nat {
    if k <= 1 then 7 else 5 * k + 1
  }

  lemma RowShape(t: nat)
    requires t < |TABLE|
    ensures var row := TABLE[t]; var k := t + 1;
            && |TABLE| == 6
            && row.cval == LeadBase(k) && row.shift == 6 * t && row.lval == MinCode(k)
            && row.lmask == Shl(1, CodeBits(k)) - 1
  {
    assert Shl(1, 1) == 2;
    assert Shl(1, 2) == 4;
    assert Shl(1, 7) == 0x80;
    assert Shl(1, 11) == 0x800;
    assert Shl(1, 16) == 0x1_0000;
    assert Shl(1, 21) == 0x20_0000;
    assert Shl(1, 26) == 0x400_0000;
    assert Shl(1, 31) == 0x8000_0000;
  }

  lemma SmallPowers()
    ensures Shl(1, 1) == 2 && Shl(1, 2) == 4 && Shl(1, 3) == 8 && Shl(1, 4) == 16
    ensures Shl(1, 5) == 32 && Shl(1, 6) == 64 && Shl(1, 7) == 128 && Shl(1, 8) == 256
  {
  }

  /** Each row tests the bits above the payload: one bit in the first row, t + 2 bits in row t. */
  lemma LeadMasks(t: nat)
    requires t < |TABLE|
    ensures var ones := if t == 0 then 1 else t + 2;
            ones <= 8 && Shl(1, ones) > 0 && TABLE[t].cmask == Shl(Shl(1, ones) - 1, 8 - ones)
  {
    SmallPowers();
    assert Shl(1, 7) == 128;
    assert Shl(7, 5) == 0xE0;
    assert Shl(15, 4) == 0xF0;
    assert Shl(31, 3) == 0xF8;
    assert Shl(63, 2) == 0xFC;
    assert Shl(127, 1) == 0xFE;
  }

  /** The weight of the lowest bit a row tests. */
  function LeadUnit(t: nat): nat {
    if t == 0 then 128 else if t == 1 then 32 else if t == 2 then 16 else if t == 3 then 8 else if t == 4 then 4 else 2
  }

  lemma LeadRange(c0: Byte, t: nat)
    requires t < 6
    ensures c0 / LeadUnit(t) * LeadUnit(t) == LeadBase(t + 1) <==> SeqLen(c0) == t + 1
  {
  }

  lemma LeadMasked(c0: Byte, cmask: nat, ones: nat, t: nat)
    requires t < 6 && ones == (if t == 0 then 1 else t + 2)
    requires Shl(1, ones) > 0 && cmask == Shl(Shl(1, ones) - 1, 8 - ones)
    ensures And(c0, cmask) == c0 / LeadUnit(t) * LeadUnit(t)
  {
    assert Shl(1, 8 - ones) == LeadUnit(t) && c0 / LeadUnit(t) < Shl(1, ones) by {
      SmallPowers();
    }
    HighMask(c0, ones, 8 - ones);
  }

  /** The test of a row on the first byte: the byte announces this length. */
  lemma RowMatches(c0: Byte, t: nat)
    requires t < |TABLE|
    ensures And(c0, TABLE[t].cmask) == TABLE[t].cval <==> SeqLen(c0) == t + 1
  {
    RowShape(t);
    LeadMasks(t);
    LeadMasked(c0, TABLE[t].cmask, if t == 0 then 1 else t + 2, t);
    LeadRange(c0, t);
  }

  lemma FlipTop(b: Byte, top: nat)
    requires top == 0x80
    ensures Xor(b, top) == if b < 0x80 then b + 0x80 else b - 0x80
  {
    SmallPowers();
    XorBit(b, 7);
    ShrDivides(b, 7);
  }

  lemma KeepByte(x: Byte, low: nat)
    requires low == 0xFF
    ensures And(x, low) == x
  {
    SmallPowers();
    ShlPositive(0, 8);
    AndOnes(0, x, 8);
  }

  lemma TopTwo(x: Byte, high: nat)
    requires high == 0xC0
    ensures And(x, high) == x / 64 * 64
  {
    SmallPowers();
    assert Shl(3, 6) == 0xC0;
    HighMask(x, 2, 6);
  }

  /** The continuation test: flipping the top bit leaves a six-bit digit, or something larger. */
  lemma Continuation(b: Byte, top: nat, low: nat, high: nat)
    requires top == 0x80 && low == 0xFF && high == 0xC0
    ensures var c := And(Xor(b, top), low);
            && (And(c, high) == 0 <==> IsTail(b))
            && (IsTail(b) ==> c == b - 0x80)
  {
    FlipTop(b, top);
    var x := Xor(b, top);
    KeepByte(x, low);
    TopTwo(x, high);
  }

  /** One more digit in the accumulator. */
  lemma PushDigit(l: nat, c: nat)
    requires c < 64
    ensures Or(Shl(l, 6), c) == l * 64 + c
  {
    SmallPowers();
    OrLow(l, c, 6);
    ShlTimes(l, 6);
  }

  /** Marker bits in the high part only add a multiple of a power of 64. */
  lemma {:induction false} ValueShift(a: nat, p: nat, tail: seq<Byte>)
    requires AllTail(tail)
    ensures Value(a + p, tail) == a * Pow64(|tail|) + Value(p, tail)
  {
    if tail != [] {
      var m := |tail| - 1;
      ValueShift(a, p, tail[..m]);
      assert a * Pow64(m + 1) == 64 * (a * Pow64(m));
    }
  }

  /** The marker bits of the accumulator lie above the code bits. */
  function Above(k: nat): nat {
    if k <= 1 then 0 else if k == 2 then 6 else if k == 3 then 14 else if k == 4 then 30 else if k == 5 then 62 else 126
  }

  lemma MarkerAbove(k: nat)
    requires 1 <= k <= 6
    ensures LeadBase(k) * Pow64(k - 1) == Shl(Above(k), CodeBits(k))
  {
    Powers();
    ShlTimes(Above(k), CodeBits(k));
    assert Shl(1, 7) == 0x80 && Shl(1, 11) == 0x800 && Shl(1, 16) == 0x1_0000 && Shl(1, 21) == 0x20_0000;
    assert Shl(1, 26) == 0x400_0000 && Shl(1, 31) == 0x8000_0000;
  }

  lemma ValueBits(lead: Byte, tail: seq<Byte>)
    requires AllTail(tail) && SeqLen(lead) == |tail| + 1
    ensures Value(lead - LeadBase(|tail| + 1), tail) < Shl(1, CodeBits(|tail| + 1))
  {
    Powers();
    ValueBounds(lead - LeadBase(|tail| + 1), tail);
    assert Shl(1, 7) == 0x80 && Shl(1, 11) == 0x800 && Shl(1, 16) == 0x1_0000 && Shl(1, 21) == 0x20_0000;
    assert Shl(1, 26) == 0x400_0000 && Shl(1, 31) == 0x8000_0000;
  }

  /** Masking the accumulator of a matching row leaves the code. */
  lemma MaskedValue(lead: Byte, tail: seq<Byte>)
    requires AllTail(tail) && SeqLen(lead) == |tail| + 1
    ensures var k := |tail| + 1;
            And(Value(lead, tail), TABLE[k - 1].lmask) == Value(lead - LeadBase(k), tail)
  {
    var k := |tail| + 1;
    RowShape(k - 1);
    var v := Value(lead - LeadBase(k), tail);
    ValueShift(LeadBase(k), lead - LeadBase(k), tail);
    MarkerAbove(k);
    ValueBits(lead, tail);
    AndOnes(Above(k), v, CodeBits(k));
  }

  // ---------------------------------------------------------------- utf8_mbtowc

  /** The bytes from ip on that a limit of n lets the decoder use; it always looks at the first one. */
  function Window(s: seq<Byte>, ip: nat, n: int): (w: seq<Byte>)
    requires ip < |s|
    ensures w != [] && w[0] == s[ip]
  {
    if n <= 1 then s[ip..ip + 1] else if ip + n <= |s| then s[ip..ip + n] else s[ip..]
  }

  /** The limit keeps the decoder inside the buffer, or a NUL does. */
  predicate Readable(s: seq<Byte>, ip: nat, n: int) {
    ip < |s| && (ip + n <= |s| || exists z :: ip <= z < |s| && s[z] == 0)
  }

  /** As far as the loop has come, the window shows the buffer. */
  lemma WindowStart(s: seq<Byte>, ip: nat, n: int, t: nat)
    requires ip + t < |s| && (t > 0 ==> n > t)
    ensures t < |Window(s, ip, n)| && Window(s, ip, n)[1..t + 1] == s[ip + 1..ip + t + 1]
  {
    var w := Window(s, ip, n);
    assert |w| > t;
    assert forall k :: 1 <= k <= t ==> w[k] == s[ip + k];
  }

  /** Nothing in the window is a character, because the announced length is not met. */
  lemma TooShort(w: seq<Byte>, t: nat)
    requires w != [] && SeqLen(w[0]) != t + 1 && (SeqLen(w[0]) == 0 || SeqLen(w[0]) > t)
    requires t + 1 >= |w| || !IsTail(w[t + 1])
    ensures DecodeOne(w).Bad?
  {
    var k := SeqLen(w[0]);
    OneMeaning(w);
    if t + 2 <= k <= |w| {
      assert w[1..k][t] == w[t + 1];
    }
  }

  lemma OneMoreByte(tail: seq<Byte>, l: nat, c0: Byte, b: Byte)
    requires AllTail(tail) && l == Value(c0, tail) && IsTail(b)
    ensures AllTail(tail + [b]) && Value(c0, tail + [b]) == l * 64 + (b - 0x80)
  {
    assert (tail + [b])[..|tail|] == tail;
  }

  lemma RowDecodes(w: seq<Byte>, tail: seq<Byte>)
    requires w != [] && |tail| < |w| && tail == w[1..|tail| + 1] && AllTail(tail) && SeqLen(w[0]) == |tail| + 1
    ensures |TABLE| == 6
    ensures var row := TABLE[|tail|]; var code := And(Value(w[0], tail), row.lmask);
            DecodeOne(w) == if code < row.lval then Bad else Char(|tail| + 1, code)
  {
    RowShape(|tail|);
    MaskedValue(w[0], tail);
    OneMeaning(w);
  }

  /** Whether the marker of a row fits the first byte. */
  method RowTest(c0: Byte, t: nat) returns (matches: bool)
    requires t < |TABLE| && (SeqLen(c0) == 0 || SeqLen(c0) > t)
    ensures matches == (SeqLen(c0) == t + 1)
  {
    RowMatches(c0, t);
    matches := And(c0, TABLE[t].cmask) == TABLE[t].cval;
  }

  datatype Scan = Scan(t: nat, l: nat)

  /** After t turns the first byte and t continuation bytes are in the accumulator. */
  ghost predicate Scanning(src: seq<Byte>, ip: nat, n: int, at: Scan) {
    match at
    case Scan(t, l) =>
      && ip + t < |src| && (t > 0 ==> n > t) && (SeqLen(src[ip]) == 0 || SeqLen(src[ip]) > t)
      && AllTail(src[ip + 1..ip + t + 1]) && l == Value(src[ip], src[ip + 1..ip + t + 1])
  }

  lemma ScanStarts(src: seq<Byte>, ip: nat, n: int)
    requires ip < |src|
    ensures Scanning(src, ip, n, Scan(0, src[ip]))
  {
  }

  /** The loop stops without a row, and rightly so. */
  lemma ScanFails(src: seq<Byte>, ip: nat, n: int, t: nat, l: nat)
    requires Scanning(src, ip, n, Scan(t, l)) && ip < |src| && SeqLen(src[ip]) != t + 1
    requires n <= t + 1 || (ip + t + 1 < |src| && !IsTail(src[ip + t + 1]))
    ensures DecodeOne(Window(src, ip, n)).Bad?
  {
    var w := Window(src, ip, n);
    WindowStart(src, ip, n, t);
    assert t + 1 < |w| ==> w[t + 1] == src[ip + t + 1];
    TooShort(w, t);
  }

  lemma ScanInside(src: seq<Byte>, ip: nat, n: int, t: nat, l: nat)
    requires Scanning(src, ip, n, Scan(t, l)) && Readable(src, ip, n) && SeqLen(src[ip]) != t + 1 && n > t + 1
    ensures ip + t + 1 < |src|
  {
    var tail := src[ip + 1..ip + t + 1];
    assert forall i :: ip < i <= ip + t ==> src[i] == tail[i - ip - 1];
    StaysInside(src, ip, n, t);
  }

  lemma ScanNext(src: seq<Byte>, ip: nat, n: int, t: nat, l: nat)
    requires Scanning(src, ip, n, Scan(t, l)) && ip < |src| && SeqLen(src[ip]) != t + 1 && n > t + 1
    requires ip + t + 1 < |src| && IsTail(src[ip + t + 1])
    ensures Scanning(src, ip, n, Scan(t + 1, l * 64 + (src[ip + t + 1] - 0x80)))
  {
    var tail, b := src[ip + 1..ip + t + 1], src[ip + t + 1];
    OneMoreByte(tail, l, src[ip], b);
    assert src[ip + 1..ip + t + 2] == tail + [b];
  }

  /** No first byte announces more than six. */
  lemma ScanEnds(src: seq<Byte>, ip: nat, n: int, l: nat)
    requires Scanning(src, ip, n, Scan(6, l)) && ip < |src|
    ensures DecodeOne(Window(src, ip, n)).Bad?
  {
  }

  lemma ScanFits(src: seq<Byte>, ip: nat, n: int, t: nat, l: nat)
    requires Scanning(src, ip, n, Scan(t, l)) && ip < |src| && SeqLen(src[ip]) == t + 1
    ensures t < |TABLE| == 6
    ensures var row := TABLE[t]; var code := And(l, row.lmask);
            DecodeOne(Window(src, ip, n)) == if code < row.lval then Bad else Char(t + 1, code)
  {
    var w := Window(src, ip, n);
    WindowStart(src, ip, n, t);
    RowDecodes(w, src[ip + 1..ip + t + 1]);
  }

  /** The row whose marker fits: mask the accumulator, test for the shortest form, store the unit. */
  method Accept(p: array<Unit>, op: nat, l: nat, t: nat, ghost src: seq<Byte>, ghost ip: nat, ghost n: int) returns (r: int)
    requires Scanning(src, ip, n, Scan(t, l)) && ip < |src| && SeqLen(src[ip]) == t + 1 && t < |TABLE|
    requires DecodeOne(Window(src, ip, n)).Char? ==> op < p.Length
    modifies p
    ensures match DecodeOne(Window(src, ip, n))
            case Bad => r == -1 && p[..] == old(p[..])
            case Char(k, code) => r == k && op < p.Length && p[..] == old(p[..])[op := code % 0x1_0000]
  {
    ScanFits(src, ip, n, t, l);
    var code := And(l, TABLE[t].lmask);
    if code < TABLE[t].lval {
      return -1;
    }
    p[op] := code % 0x1_0000;
    r := t + 1;
  }

  /** The two masks on the next byte, and the digit it adds. */
  method NextDigit(l: nat, b: Byte) returns (ok: bool, l': nat)
    ensures ok == IsTail(b)
    ensures ok ==> l' == l * 64 + (b - 0x80)
  {
    var c := And(Xor(b, 0x80), 0xFF);
    Continuation(b, 0x80, 0xFF, 0xC0);
    ok, l' := And(c, 0xC0) == 0, l;
    if ok {
      PushDigit(l, c);
      l' := Or(Shl(l, 6), c);
    }
  }

  /**
    * Decode one character at s[ip..] into p[op]: the result is its length in bytes, or -1 with
    * the buffer untouched.
    */
  method MbToWc(p: array<Unit>, op: nat, s: array<Byte>, ip: nat, n: int) returns (r: int)
    requires Readable(s[..], ip, n)
    requires DecodeOne(Window(s[..], ip, n)).Char? ==> op < p.Length
    modifies p
    ensures match DecodeOne(Window(old(s[..]), ip, n))
            case Bad => r == -1 && p[..] == old(p[..])
            case Char(k, code) => r == k && op < p.Length && p[..] == old(p[..])[op := code % 0x1_0000]
  {
    ghost var src := s[..];
    var nc := 0;
    var pos := ip;
    var c0 := s[pos];
    var l: nat := c0;
    var t := 0;
    ScanStarts(src, ip, n);
    while t < |TABLE|
      invariant 0 <= t <= 6 && nc == t && pos == ip + t
      invariant Scanning(src, ip, n, Scan(t, l)) && (SeqLen(c0) == 0 || SeqLen(c0) > t)
      invariant p[..] == old(p[..]) && s[..] == src
      decreases 6 - t
    {
      nc := nc + 1;
      var matches := RowTest(c0, t);
      if matches {
        r := Accept(p, op, l, t, src, ip, n);
        return;
      }
      if n <= nc {
        ScanFails(src, ip, n, t, l);
        return -1;
      }
      ScanInside(src, ip, n, t, l);
      pos := pos + 1;
      var ok, l' := NextDigit(l, s[pos]);
      if !ok {
        ScanFails(src, ip, n, t, l);
        return -1;
      }
      ScanNext(src, ip, n, t, l);
      l := l';
      t := t + 1;
    }
    ScanEnds(src, ip, n, l);
    return -1;
  }

  /** While the bytes so far are continuation bytes and the limit is not met, there is a next byte. */
  lemma StaysInside(s: seq<Byte>, ip: nat, n: int, t: nat)
    requires Readable(s, ip, n) && ip + t < |s| && n > t + 1
    requires SeqLen(s[ip]) != 1 && forall i :: ip < i <= ip + t ==> IsTail(s[i])
    ensures ip + t + 1 < |s|
  {
  }

  // ---------------------------------------------------------------- utf8_mbstowcs

  /** Reading up to a limit of n stops inside the buffer: the limit is met there, or a NUL is. */
  predicate Terminated(s: seq<Byte>, n: int) {
    exists z :: 0 <= z < |s| && (s[z] == 0 || z >= n)
  }

  /** The loop guard, at a position inside the text: there is more text. */
  lemma MoreText(s: seq<Byte>, n: int, ip: nat)
    requires Terminated(s, n) && ip <= TextEnd(s, n, 0)
    ensures ip < |s|
    ensures s[ip] != 0 && n - ip > 0 <==> ip < TextEnd(s, n, 0)
    ensures ip < TextEnd(s, n, 0) ==> Readable(s, ip, n - ip)
  {
    var z :| 0 <= z < |s| && (s[z] == 0 || z >= n);
  }

  /** One character decoded from the buffer is one character of the text: a NUL ends both. */
  lemma WindowDecodesText(s: seq<Byte>, n: int, ip: nat)
    requires ip < |Text(s, n)|
    ensures DecodeOne(Window(s, ip, n - ip)) == DecodeOne(Text(s, n)[ip..])
  {
    var t := Text(s, n);
    var w := Window(s, ip, n - ip);
    var rest := w[|t| - ip..];
    var here := t[ip..];
    assert w == here + rest;
    assert StartsCharacter(rest);
    DecodeOneStable(here, rest);
  }

  /** One step of the loop. */
  lemma DecodeFrom(t: seq<Byte>, ip: nat)
    requires ip < |t|
    ensures var d := DecodeOne(t[ip..]);
            && ip + Consumed(d) <= |t|
            && DecodeText(t[ip..]) == Emitted(d) + DecodeText(t[ip + Consumed(d)..])
  {
    var d := DecodeOne(t[ip..]);
    DecodeStep(t[ip..], d);
    assert t[ip..][Consumed(d)..] == t[ip + Consumed(d)..];
  }

  lemma AsciiByte(b: Byte, top: nat)
    requires top == 0x80
    ensures And(b, top) == 0 <==> b < 0x80
  {
    SmallPowers();
    assert Shl(1, 7) == top;
    HighMask(b, 1, 7);
  }

  lemma AsciiDecodes(t: seq<Byte>)
    requires t != []
    ensures t[0] < 0x80 ==> DecodeOne(t) == Char(1, t[0])
  {
  }

  /** The buffer after a character was decoded into position op. */
  function Put(out: seq<Unit>, op: nat, d: Decoded): seq<Unit>
    requires d.Char? ==> op < |out|
  {
    if d.Bad? then out else out[op := d.code % 0x1_0000]
  }

  /** The character at a position of the text, and the units still to come from there. */
  ghost function CharAt(src: seq<Byte>, n: int, ip: nat): Decoded
    requires ip < TextEnd(src, n, 0)
  {
    DecodeOne(Text(src, n)[ip..])
  }

  ghost function Rest(src: seq<Byte>, n: int, ip: nat): seq<Unit>
    requires ip <= TextEnd(src, n, 0)
  {
    DecodeText(Text(src, n)[ip..])
  }

  /** What one turn of the loop does to the text still to be decoded. */
  lemma RestStep(src: seq<Byte>, n: int, ip: nat)
    requires ip < TextEnd(src, n, 0)
    ensures var d := CharAt(src, n, ip);
            && ip + Consumed(d) <= TextEnd(src, n, 0)
            && Rest(src, n, ip) == Emitted(d) + Rest(src, n, ip + Consumed(d))
  {
    var t := Text(src, n);
    var d := CharAt(src, n, ip);
    assert |t| == TextEnd(src, n, 0);
    DecodeFrom(t, ip);
    RestIs(src, n, t, ip);
    RestIs(src, n, t, ip + Consumed(d));
  }

  lemma RestIs(src: seq<Byte>, n: int, t: seq<Byte>, ip: nat)
    requires t == Text(src, n) && ip <= |t|
    ensures Rest(src, n, ip) == DecodeText(t[ip..])
  {
  }

  /** Putting a character behind what is done appends it. */
  lemma PutAppends(done: seq<Unit>, was: seq<Unit>, d: Decoded)
    requires |done| + |Emitted(d)| <= |was|
    ensures Put(done + was[|done|..], |done|, d) == done + Emitted(d) + was[|done| + |Emitted(d)|..]
  {
  }

  lemma NothingDone(src: seq<Byte>, n: int)
    ensures Rest(src, n, 0) == Utf8Text.MbsToWcs(src, n)
  {
    assert Text(src, n)[0..] == Text(src, n);
  }

  lemma NothingLeft(src: seq<Byte>, n: int)
    ensures Rest(src, n, TextEnd(src, n, 0)) == []
  {
  }

  /** How far a string loop has come: its position in the input, the output done, and the buffer. */
  datatype Progress<T> = Progress(ip: nat, done: seq<T>, out: seq<T>)

  /** The units done so far and those still to come make up the result; the buffer holds the former. */
  ghost predicate Decoding(src: seq<Byte>, n: int, was: seq<Unit>, at: Progress<Unit>) {
    match at
    case Progress(ip, done, out) =>
      && ip <= TextEnd(src, n, 0) && |done| <= |Utf8Text.MbsToWcs(src, n)| <= |was|
      && Utf8Text.MbsToWcs(src, n) == done + Rest(src, n, ip)
      && out == done + was[|done|..]
  }

  lemma DecodingStarts(src: seq<Byte>, n: int, was: seq<Unit>)
    requires |Utf8Text.MbsToWcs(src, n)| <= |was|
    ensures Decoding(src, n, was, Progress(0, [], was))
  {
    NothingDone(src, n);
  }

  lemma DecodingAdvances(src: seq<Byte>, n: int, was: seq<Unit>, at: Progress<Unit>, d: Decoded)
    requires Decoding(src, n, was, at) && at.ip < TextEnd(src, n, 0) && d == CharAt(src, n, at.ip)
    ensures d.Char? ==> |at.done| < |at.out|
    ensures Decoding(src, n, was, Progress(at.ip + Consumed(d), at.done + Emitted(d), Put(at.out, |at.done|, d)))
  {
    DoneStep(src, n, at.ip, at.done, d);
    PutAppends(at.done, was, d);
  }

  /** One turn of the loop, on what is done. */
  lemma DoneStep(src: seq<Byte>, n: int, ip: nat, done: seq<Unit>, d: Decoded)
    requires ip < TextEnd(src, n, 0) && Utf8Text.MbsToWcs(src, n) == done + Rest(src, n, ip)
    requires d == CharAt(src, n, ip)
    ensures ip + Consumed(d) <= TextEnd(src, n, 0) && |done + Emitted(d)| <= |Utf8Text.MbsToWcs(src, n)|
    ensures Utf8Text.MbsToWcs(src, n) == done + Emitted(d) + Rest(src, n, ip + Consumed(d))
  {
    RestStep(src, n, ip);
    Associative(done, Emitted(d), Rest(src, n, ip + Consumed(d)));
  }

  lemma DecodingInside(src: seq<Byte>, n: int, was: seq<Unit>, at: Progress<Unit>)
    requires Decoding(src, n, was, at)
    ensures at.ip <= TextEnd(src, n, 0)
  {
  }

  lemma DecodingEnds(src: seq<Byte>, n: int, was: seq<Unit>, at: Progress<Unit>)
    requires Decoding(src, n, was, at) && at.ip == TextEnd(src, n, 0)
    ensures at.done == Utf8Text.MbsToWcs(src, n)
    ensures at.out == Utf8Text.MbsToWcs(src, n) + was[|at.done|..]
  {
    NothingLeft(src, n);
  }

  /** An ASCII byte is copied, anything else goes to utf8_mbtowc; a bad byte is skipped. */
  method DecodeOrSkip(pwcs: array<Unit>, op: nat, s: array<Byte>, ip: nat, left: int, ghost d: Decoded)
    returns (op': nat, ip': nat, left': int)
    requires Readable(s[..], ip, left) && Shows(s[..], ip, left, d)
    requires d.Char? ==> op < pwcs.Length
    modifies pwcs
    ensures pwcs[..] == Put(old(pwcs[..]), op, d)
    ensures op' == op + |Emitted(d)| && ip' == ip + Consumed(d) && left' == left - Consumed(d)
  {
    AsciiByte(s[ip], 0x80);
    AsciiDecodes(Window(s[..], ip, left));
    if And(s[ip], 0x80) != 0 {
      var size := MbToWc(pwcs, op, s, ip, left);
      if size == -1 {
        op', ip', left' := op, ip + 1, left - 1;
      } else {
        op', ip', left' := op + 1, ip + size, left - size;
      }
    } else {
      ghost var b := s[ip];
      pwcs[op] := s[ip];
      assert pwcs[..] == old(pwcs[..])[op := b];
      op', ip', left' := op + 1, ip + 1, left - 1;
    }
  }

  /** The character at ip, as far as the limit lets the decoder look. */
  ghost predicate Shows(src: seq<Byte>, ip: nat, left: int, d: Decoded)
    requires ip < |src|
  {
    match d
    case Bad => DecodeOne(Window(src, ip, left)) == Bad
    case Char(k, code) => DecodeOne(Window(src, ip, left)) == Char(k, code)
  }

  lemma TurnReady(src: seq<Byte>, n: int, was: seq<Unit>, at: Progress<Unit>, left: int) returns (d: Decoded)
    requires Decoding(src, n, was, at) && at.ip < TextEnd(src, n, 0) && left == n - at.ip
    ensures Shows(src, at.ip, left, d) && (d.Char? ==> |at.done| < |at.out|)
    ensures Decoding(src, n, was, Progress(at.ip + Consumed(d), at.done + Emitted(d), Put(at.out, |at.done|, d)))
  {
    d := CharAt(src, n, at.ip);
    WindowDecodesText(src, n, at.ip);
    DecodingAdvances(src, n, was, at, d);
  }

  /** One turn of the loop in utf8_mbstowcs. */
  method DecodeTurn(pwcs: array<Unit>, op: nat, s: array<Byte>, ip: nat, left: int,
                    ghost n: int, ghost was: seq<Unit>, ghost at: Progress<Unit>)
    returns (op': nat, ip': nat, left': int, ghost at': Progress<Unit>)
    requires Readable(s[..], ip, left) && left == n - ip && ip < TextEnd(s[..], n, 0)
    requires Decoding(s[..], n, was, at) && at == Progress(ip, at.done, pwcs[..]) && op == |at.done|
    modifies pwcs
    ensures s[..] == old(s[..])
    ensures Decoding(s[..], n, was, at') && at' == Progress(ip', at'.done, pwcs[..]) && op' == |at'.done|
    ensures left' == n - ip' < left
  {
    ghost var src := s[..];
    ghost var d := TurnReady(src, n, was, at, left);
    at' := Progress(ip + Consumed(d), at.done + Emitted(d), Put(at.out, op, d));
    op', ip', left' := DecodeOrSkip(pwcs, op, s, ip, left, d);
    assert s[..] == src;
  }

  /**
    * Decode a string into the buffer: exactly the units of the text, and nothing else is
    * written. No byte is read after the first NUL, nor after index n: the guard looks at the
    * byte there before it tests the limit.
    */
  method MbsToWcs(pwcs: array<Unit>, s: array<Byte>, n: int) returns (r: int)
    requires Terminated(s[..], n)
    requires |Utf8Text.MbsToWcs(s[..], n)| <= pwcs.Length
    modifies pwcs
    ensures r == |Utf8Text.MbsToWcs(old(s[..]), n)|
    ensures pwcs[..] == Utf8Text.MbsToWcs(old(s[..]), n) + old(pwcs[..])[r..]
  {
    ghost var src, was := s[..], pwcs[..];
    ghost var at := Progress(0, [], was);
    var op, ip := 0, 0;
    var left := n;
    DecodingStarts(src, n, was);
    MoreText(src, n, 0);
    while s[ip] != 0 && left > 0
      invariant 0 <= ip < s.Length && ip <= TextEnd(src, n, 0) && left == n - ip
      invariant s[..] == src
      invariant Decoding(src, n, was, at) && at == Progress(ip, at.done, pwcs[..]) && op == |at.done|
      decreases left
    {
      MoreText(src, n, ip);
      op, ip, left, at := DecodeTurn(pwcs, op, s, ip, left, n, was, at);
      DecodingInside(src, n, was, at);
      MoreText(src, n, ip);
    }
    MoreText(src, n, ip);
    DecodingEnds(src, n, was, at);
    r := op;
  }

  // ---------------------------------------------------------------- utf8_wctomb

  function ToByte(x: nat): Byte {
    x % 0x100
  }

  lemma SixBits(x: nat, low: nat)
    requires low == 0x3F
    ensures And(x, low) == x % 64
  {
    SmallPowers();
    ShlTimes(x / 64, 6);
    AndOnes(x / 64, x % 64, 6);
  }

  /** Shifting by six bits drops a base-64 digit. */
  lemma {:induction false} ShrHigh(l: nat, m: nat)
    ensures Shr(l, 6 * m) == High(l, m)
  {
    if m > 0 {
      assert Shr(l, 6 * m) == Shr(l / 64, 6 * (m - 1)) by {
        ShrSix(l, 6 * (m - 1));
      }
      ShrHigh(l / 64, m - 1);
    }
  }

  lemma ShrSix(l: nat, k: nat)
    ensures Shr(l, k + 6) == Shr(l / 64, k)
  {
    assert Shr(l, k + 6) == Shr(l / 2, k + 5) == Shr(l / 2 / 2, k + 4) == Shr(l / 2 / 2 / 2, k + 3);
    assert Shr(l / 2 / 2 / 2, k + 3) == Shr(l / 2 / 2 / 2 / 2, k + 2) == Shr(l / 2 / 2 / 2 / 2 / 2, k + 1);
    assert Shr(l / 2 / 2 / 2 / 2 / 2, k + 1) == Shr(l / 2 / 2 / 2 / 2 / 2 / 2, k);
    assert l / 2 / 2 / 2 / 2 / 2 / 2 == l / 64;
  }

  /** Byte i of the tail, counted from the front, holds the digit that many places down. */
  lemma {:induction false} TailByte(code: nat, m: nat, i: nat)
    requires i < m
    ensures Tail(code, m)[i] == 0x80 + High(code, m - 1 - i) % 64
  {
    if i < m - 1 {
      TailByte(code / 64, m - 1, i);
    }
  }

  /** Setting the marker bits of a continuation byte is addition. */
  lemma MarkTail(x: nat, mark: nat)
    requires x < 64 && mark == 0x80
    ensures Or(mark, x) == mark + x
  {
    SmallPowers();
    assert Shl(2, 6) == mark;
    OrLow(2, x, 6);
  }

  /** So it is for a first byte of up to three bytes. */
  lemma MarkLead(u: Unit, t: nat)
    requires Len(u) == t + 1
    ensures t < |TABLE| && Or(TABLE[t].cval, High(u, t)) == LeadBase(t + 1) + High(u, t)
  {
    RowShape(t);
    if t == 1 {
      SmallPowers();
      assert Shl(6, 5) == 0xC0;
      assert High(u, 1) == u / 64;
      OrLow(6, High(u, t), 5);
    } else if t == 2 {
      SmallPowers();
      assert Shl(14, 4) == 0xE0;
      assert High(u, 2) == High(u / 64, 1) == u / 64 / 64;
      OrLow(14, High(u, t), 4);
    }
  }

  lemma LimitMask(u: Unit, t: nat)
    requires t < |TABLE|
    ensures u <= TABLE[t].lmask <==> Len(u) <= t + 1
  {
  }

  datatype Filling = Filling(k: nat, out: seq<Byte>)

  /** The buffer after the first k bytes have been written. */
  ghost predicate Written(was: seq<Byte>, op: nat, bytes: seq<Byte>, at: Filling) {
    match at
    case Filling(k, out) =>
      && k <= |bytes| && op + k <= |out| == |was|
      && out == was[..op] + bytes[..k] + was[op + k..]
  }

  lemma WriteStarts(was: seq<Byte>, op: nat, bytes: seq<Byte>)
    requires op <= |was|
    ensures Written(was, op, bytes, Filling(0, was))
  {
  }

  lemma WriteNext(was: seq<Byte>, op: nat, bytes: seq<Byte>, k: nat, out: seq<Byte>)
    requires Written(was, op, bytes, Filling(k, out)) && k < |bytes| && op + k < |out|
    ensures Written(was, op, bytes, Filling(k + 1, out[op + k := bytes[k]]))
  {
    assert bytes[..k + 1] == bytes[..k] + [bytes[k]];
    assert was[op + k..][1..] == was[op + k + 1..];
  }

  lemma WriteEnds(was: seq<Byte>, op: nat, bytes: seq<Byte>, out: seq<Byte>)
    requires Written(was, op, bytes, Filling(|bytes|, out))
    ensures op + |bytes| <= |was| && out == was[..op] + bytes + was[op + |bytes|..]
  {
    assert bytes[..|bytes|] == bytes;
  }

  /** Store the next byte of an encoding. */
  method WriteByte(s: array<Byte>, pos: nat, b: Byte, ghost was: seq<Byte>, ghost op: nat, ghost bytes: seq<Byte>, ghost k: nat)
    requires Written(was, op, bytes, Filling(k, s[..])) && k < |bytes| && pos == op + k < s.Length && b == bytes[k]
    modifies s
    ensures Written(was, op, bytes, Filling(k + 1, s[..]))
  {
    ghost var before := s[..];
    WriteNext(was, op, bytes, k, before);
    s[pos] := b;
    assert s[..] == before[pos := b];
  }

  /**
    * Encode one unit at s[op..]: the result is the number of bytes, or -1 with the buffer
    * untouched if the budget is too small. A negative budget never runs out.
    */
  method WcToMb(s: array?<Byte>, op: nat, wc: Unit, maxlen: int) returns (r: int)
    requires s != null && (maxlen < 0 || maxlen >= Len(wc)) ==> op + Len(wc) <= s.Length
    modifies s
    ensures s == null ==> r == 0
    ensures s != null && (maxlen < 0 || maxlen >= Len(wc)) ==>
              r == Len(wc) && s[..] == old(s[..op]) + Encode(wc) + old(s[op + Len(wc)..])
    ensures s != null && 0 <= maxlen < Len(wc) ==> r == -1 && s[..] == old(s[..])
  {
    if s == null {
      return 0;
    }
    var l: nat := wc;
    var nc, t, budget := 0, 0, maxlen;
    while t < |TABLE| && budget != 0
      invariant 0 <= t <= 6 && nc == t && budget == maxlen - t
      invariant Len(wc) > t
      invariant maxlen >= 0 ==> budget >= 0
      invariant s[..] == old(s[..])
      decreases 6 - t
    {
      nc := nc + 1;
      LimitMask(wc, t);
      if l <= TABLE[t].lmask {
        WriteCharacter(s, op, wc, t);
        return nc;
      }
      t, budget := t + 1, budget - 1;
    }
    return -1;
  }

  /** The value stored for a first byte. */
  lemma LeadByte(wc: Unit, t: nat)
    requires Len(wc) == t + 1
    ensures t < |TABLE| && TABLE[t].shift == 6 * t
    ensures ToByte(Or(TABLE[t].cval, Shr(wc, TABLE[t].shift))) == Encode(wc)[0]
  {
    RowShape(t);
    ShrHigh(wc, t);
    MarkLead(wc, t);
    LeadFits(wc);
  }

  /** The value stored for the continuation byte with m digits after it. */
  lemma TailByteStored(wc: Unit, t: nat, m: nat, mark: nat, low: nat)
    requires Len(wc) == t + 1 && m < t && mark == 0x80 && low == 0x3F
    ensures ToByte(Or(mark, And(Shr(wc, 6 * m), low))) == Encode(wc)[t - m]
  {
    ShrHigh(wc, m);
    SixBits(Shr(wc, 6 * m), low);
    MarkTail(Shr(wc, 6 * m) % 64, mark);
    TailByte(wc, t, t - 1 - m);
    assert Encode(wc)[t - m] == Tail(wc, t)[t - 1 - m];
  }

  function HeadByte(wc: Unit, t: nat): Byte
    requires t < |TABLE|
  {
    ToByte(Or(TABLE[t].cval, Shr(wc, TABLE[t].shift)))
  }

  function LowByte(wc: Unit, c: nat): Byte {
    ToByte(Or(0x80, And(Shr(wc, c), 0x3F)))
  }

  datatype Character = Character(wc: Unit, t: nat, bytes: seq<Byte>)

  /** The bytes that the marker bits and the shifts give. */
  ghost predicate Spelled(c: Character) {
    match c
    case Character(wc, t, bytes) =>
      && t < |TABLE| && TABLE[t].shift == 6 * t && |bytes| == t + 1
      && bytes[0] == HeadByte(wc, t)
      && forall k :: 1 <= k <= t ==> bytes[k] == LowByte(wc, 6 * (t - k))
  }

  method FirstByte(wc: Unit, t: nat, ghost bytes: seq<Byte>) returns (c: nat, b: Byte)
    requires Spelled(Character(wc, t, bytes)) && |bytes| == t + 1
    ensures c == 6 * t && b == bytes[0]
  {
    c := TABLE[t].shift;
    b := HeadByte(wc, t);
  }

  method NextByte(wc: Unit, c: nat, ghost t: nat, ghost m: nat, ghost bytes: seq<Byte>) returns (b: Byte)
    requires Spelled(Character(wc, t, bytes)) && |bytes| == t + 1 && m < t && c == 6 * m
    ensures b == bytes[t - m]
  {
    b := LowByte(wc, c);
    assert bytes[t - m] == LowByte(wc, 6 * (t - (t - m)));
  }

  lemma EncodeSpelled(wc: Unit, t: nat)
    requires Len(wc) == t + 1
    ensures Spelled(Character(wc, t, Encode(wc)))
  {
    LeadByte(wc, t);
    forall k | 1 <= k <= t ensures Encode(wc)[k] == LowByte(wc, 6 * (t - k)) {
      TailByteStored(wc, t, t - k, 0x80, 0x3F);
    }
  }

  method WriteBytes(s: array<Byte>, op: nat, wc: Unit, t: nat, ghost bytes: seq<Byte>)
    requires Spelled(Character(wc, t, bytes)) && |bytes| == t + 1 && op + t < s.Length
    modifies s
    ensures s[..] == old(s[..op]) + bytes + old(s[op + t + 1..])
  {
    ghost var was := s[..];
    var c, b := FirstByte(wc, t, bytes);
    var pos := op;
    ghost var m := t;
    WriteStarts(was, op, bytes);
    WriteByte(s, pos, b, was, op, bytes, 0);
    while c > 0
      invariant 0 <= m <= t && c == 6 * m && pos == op + t - m
      invariant Written(was, op, bytes, Filling(t + 1 - m, s[..]))
      decreases c
    {
      c := c - 6;
      m := m - 1;
      pos := pos + 1;
      b := NextByte(wc, c, t, m, bytes);
      WriteByte(s, pos, b, was, op, bytes, t - m);
    }
    WriteEnds(was, op, bytes, s[..]);
  }

  /** The body of a matching row: the first byte, then one continuation byte per six bits of shift. */
  method WriteCharacter(s: array<Byte>, op: nat, wc: Unit, t: nat)
    requires Len(wc) == t + 1 && op + Len(wc) <= s.Length
    modifies s
    ensures s[..] == old(s[..op]) + Encode(wc) + old(s[op + Len(wc)..])
  {
    EncodeSpelled(wc, t);
    WriteBytes(s, op, wc, t, Encode(wc));
  }

  // ---------------------------------------------------------------- utf8_wcstombs

  /** The bytes one turn of the loop writes, and what it takes off the budget. */
  function Output(u: Unit, budget: int): seq<Byte> {
    if Ascii(u) || Len(u) <= budget then Encode(u) else []
  }

  function Charge(u: Unit, budget: int): nat {
    if Ascii(u) then 0 else if Len(u) <= budget then Len(u) else 1
  }

  lemma KeptStep(ws: seq<Unit>, ip: nat, budget: int)
    requires ip < |ws| && budget > 0
    ensures var left := budget - Charge(ws[ip], budget);
            EncodeText(Kept(ws[ip..], budget)) == Output(ws[ip], budget) + EncodeText(Kept(ws[ip + 1..], left))
  {
    var left := budget - Charge(ws[ip], budget);
    var rest := ws[ip + 1..];
    assert ws[ip..][1..] == rest;
    if Output(ws[ip], budget) == [] {
      assert Kept(ws[ip..], budget) == Kept(rest, left);
    } else {
      assert Kept(ws[ip..], budget) == [ws[ip]] + Kept(rest, left);
      EncodeTextCons(ws[ip], Kept(rest, left));
    }
  }

  lemma VisitedStep(ws: seq<Unit>, ip: nat, budget: int)
    requires ip < |ws| && budget > 0
    ensures Visited(ws[ip..], budget) == 1 + Visited(ws[ip + 1..], budget - Charge(ws[ip], budget))
  {
    assert ws[ip..][1..] == ws[ip + 1..];
  }

  /** The bytes done so far and those still to come under the budget left make up the result. */
  ghost predicate Encoding(src: seq<Unit>, whole: seq<Byte>, was: seq<Byte>, budget: int, at: Progress<Byte>) {
    match at
    case Progress(ip, done, out) =>
      var ws := Wide(src);
      && ip <= |ws| && ip + Visited(ws[ip..], budget) < |src|
      && whole == done + EncodeText(Kept(ws[ip..], budget))
      && |done| <= |whole| <= |was| && out == done + was[|done|..]
  }

  /** One more character behind what is done, on the bytes still to come. */
  lemma EncodeAppend(ws: seq<Unit>, whole: seq<Byte>, ip: nat, budget: int, done: seq<Byte>, bytes: seq<Byte>, left: int)
    requires ip < |ws| && budget > 0
    requires bytes == Output(ws[ip], budget) && left == budget - Charge(ws[ip], budget)
    requires whole == done + EncodeText(Kept(ws[ip..], budget))
    ensures whole == done + bytes + EncodeText(Kept(ws[ip + 1..], left))
  {
    KeptStep(ws, ip, budget);
    Associative(done, bytes, EncodeText(Kept(ws[ip + 1..], left)));
  }

  /** The buffer with the output of one unit put in at position op. */
  function PutBytes(out: seq<Byte>, op: nat, bytes: seq<Byte>): seq<Byte>
    requires op + |bytes| <= |out|
  {
    out[..op] + bytes + out[op + |bytes|..]
  }

  lemma PutBytesAppends(done: seq<Byte>, was: seq<Byte>, bytes: seq<Byte>)
    requires |done + bytes| <= |was|
    ensures PutBytes(done + was[|done|..], |done|, bytes) == done + bytes + was[|done + bytes|..]
  {
  }

  lemma NothingEncoded(src: seq<Unit>, maxlen: int, was: seq<Byte>)
    requires Visited(Wide(src), maxlen) < |src| && |Utf8Text.WcsToMbs(src, maxlen)| <= |was|
    ensures Encoding(src, Utf8Text.WcsToMbs(src, maxlen), was, maxlen, Progress(0, [], was))
  {
    assert Wide(src)[0..] == Wide(src);
  }

  lemma EncodingAdvances(src: seq<Unit>, whole: seq<Byte>, was: seq<Byte>, budget: int, at: Progress<Byte>,
                         bytes: seq<Byte>, left: int)
    requires Encoding(src, whole, was, budget, at) && at.ip < |Wide(src)| && budget > 0
    requires bytes == Output(Wide(src)[at.ip], budget) && left == budget - Charge(Wide(src)[at.ip], budget)
    ensures |at.done| + |bytes| <= |at.out|
    ensures Encoding(src, whole, was, left, Progress(at.ip + 1, at.done + bytes, PutBytes(at.out, |at.done|, bytes)))
  {
    VisitedStep(Wide(src), at.ip, budget);
    EncodeAppend(Wide(src), whole, at.ip, budget, at.done, bytes, left);
    assert |at.done + bytes| <= |whole|;
    PutBytesAppends(at.done, was, bytes);
  }

  /** The guard of the loop holds only before the terminator, and fails only when nothing is left to write. */
  lemma EncodingGuard(src: seq<Unit>, whole: seq<Byte>, was: seq<Byte>, budget: int, at: Progress<Byte>)
    requires Encoding(src, whole, was, budget, at)
    ensures at.ip < |src|
    ensures if src[at.ip] != 0 && budget > 0 then at.ip < |Wide(src)|
            else at.done == whole && at.out == whole + was[|whole|..]
  {
    var ws := Wide(src);
    if at.ip < |ws| {
      assert src[at.ip] == ws[at.ip] && ws[at.ip] in ws;
    }
  }

  lemma AsciiEncodes(u: Unit)
    requires Ascii(u)
    ensures Encode(u) == [u]
  {
    assert Tail(u, 0) == [];
  }

  /** An ASCII unit is copied and not charged; any other goes to utf8_wctomb, and is charged 1 if skipped. */
  method EncodeOrSkip(s: array<Byte>, op: nat, wc: Unit, budget: int) returns (op': nat, budget': int)
    requires budget > 0 && op + |Output(wc, budget)| <= s.Length
    modifies s
    ensures s[..] == PutBytes(old(s[..]), op, Output(wc, budget))
    ensures op' == op + |Output(wc, budget)| && budget' == budget - Charge(wc, budget)
  {
    if wc > 0x7F {
      var size := WcToMb(s, op, wc, budget);
      if size == -1 {
        op', budget' := op, budget - 1;
      } else {
        op', budget' := op + size, budget - size;
      }
    } else {
      PutAscii(s, op, wc);
      op', budget' := op + 1, budget;
    }
  }

  method PutAscii(s: array<Byte>, op: nat, wc: Unit)
    requires Ascii(wc) && op < s.Length
    modifies s
    ensures s[..] == PutBytes(old(s[..]), op, Encode(wc))
  {
    AsciiEncodes(wc);
    s[op] := ToByte(wc);
  }

  /** One turn of the loop in utf8_wcstombs. */
  method EncodeTurn(s: array<Byte>, op: nat, pwcs: array<Unit>, ip: nat, budget: int,
                    ghost whole: seq<Byte>, ghost was: seq<Byte>, ghost at: Progress<Byte>)
    returns (op': nat, budget': int, ghost at': Progress<Byte>)
    requires Encoding(pwcs[..], whole, was, budget, at) && at == Progress(ip, at.done, s[..]) && op == |at.done|
    requires ip < |Wide(pwcs[..])| && budget > 0
    modifies s
    ensures pwcs[..] == old(pwcs[..])
    ensures Encoding(pwcs[..], whole, was, budget', at') && at' == Progress(ip + 1, at'.done, s[..]) && op' == |at'.done|
  {
    ghost var src := pwcs[..];
    assert src[ip] == Wide(src)[ip];
    ghost var bytes := Output(src[ip], budget);
    EncodingAdvances(src, whole, was, budget, at, bytes, budget - Charge(src[ip], budget));
    at' := Progress(ip + 1, at.done + bytes, PutBytes(at.out, op, bytes));
    op', budget' := EncodeOrSkip(s, op, pwcs[ip], budget);
    assert pwcs[..] == src;
  }

  /**
    * Encode a string of units into the buffer: exactly the encodings of the units kept under
    * the budget, and nothing else is written.
    */
  method WcsToMbs(s: array<Byte>, pwcs: array<Unit>, maxlen: int) returns (r: int)
    requires Visited(Wide(pwcs[..]), maxlen) < pwcs.Length
    requires |Utf8Text.WcsToMbs(pwcs[..], maxlen)| <= s.Length
    modifies s
    ensures r == |Utf8Text.WcsToMbs(old(pwcs[..]), maxlen)|
    ensures s[..] == Utf8Text.WcsToMbs(old(pwcs[..]), maxlen) + old(s[..])[r..]
  {
    ghost var src, was := pwcs[..], s[..];
    ghost var whole := Utf8Text.WcsToMbs(src, maxlen);
    ghost var at := Progress(0, [], was);
    var op, ip := 0, 0;
    var budget := maxlen;
    NothingEncoded(src, maxlen, was);
    EncodingGuard(src, whole, was, budget, at);
    while pwcs[ip] != 0 && budget > 0
      invariant 0 <= ip < pwcs.Length
      invariant pwcs[..] == src
      invariant Encoding(src, whole, was, budget, at) && at == Progress(ip, at.done, s[..]) && op == |at.done|
      decreases pwcs.Length - ip
    {
      EncodingGuard(src, whole, was, budget, at);
      op, budget, at := EncodeTurn(s, op, pwcs, ip, budget, whole, was, at);
      ip := ip + 1;
      EncodingGuard(src, whole, was, budget, at);
    }
    EncodingGuard(src, whole, was, budget, at);
    r := op;
  }
}
