/** Cutting encoded text anywhere, and running out of output budget. */
module Utf8Slices {
  import opened Sequences
  import opened Utf8
  import opened Utf8Text

  // ---------------------------------------------------------------- slices decode to the whole characters inside

  /** The byte offset at which unit p of the encoded text starts. */
  function Offset(ws: seq<Unit>, p: nat): nat
    requires p <= |ws|
  {
    |EncodeText(ws[..p])|
  }

  lemma {:induction false} EncodeTextConcat(a: seq<Unit>, b: seq<Unit>)
    ensures EncodeText(a + b) == EncodeText(a) + EncodeText(b)
  {
    if a == [] {
      assert a + b == b;
    } else {
      var rest := a[1..];
      EncodeTextConcat(rest, b);
      calc {
        EncodeText(a + b);
        { assert (a + b)[0] == a[0] && (a + b)[1..] == rest + b; }
        Encode(a[0]) + EncodeText(rest + b);
        Encode(a[0]) + (EncodeText(rest) + EncodeText(b));
        { Associative(Encode(a[0]), EncodeText(rest), EncodeText(b)); }
        Encode(a[0]) + EncodeText(rest) + EncodeText(b);
        EncodeText(a) + EncodeText(b);
      }
    }
  }

  lemma EncodeTextSingle(u: Unit)
    ensures EncodeText([u]) == Encode(u)
  {
    assert EncodeText([u][1..]) == [];
  }

  lemma EncodeTextAround(left: seq<Unit>, u: Unit, right: seq<Unit>)
    ensures EncodeText(left + [u]) == EncodeText(left) + Encode(u)
    ensures EncodeText(left + [u] + right) == EncodeText(left) + Encode(u) + EncodeText(right)
  {
    EncodeTextSingle(u);
    EncodeTextConcat(left, [u]);
    EncodeTextConcat(left + [u], right);
  }

  lemma OffsetNext(ws: seq<Unit>, p: nat)
    requires p < |ws|
    ensures Offset(ws, p + 1) == Offset(ws, p) + Len(ws[p])
    ensures EncodeText(ws) == EncodeText(ws[..p]) + Encode(ws[p]) + EncodeText(ws[p + 1..])
  {
    SplitAt(ws, p, ws[p]);
    EncodeTextAround(ws[..p], ws[p], ws[p + 1..]);
  }

  lemma {:induction false} OffsetsIncrease(ws: seq<Unit>, p: nat, q: nat)
    requires p <= q <= |ws|
    ensures Offset(ws, p) <= Offset(ws, q)
    ensures p < q ==> Offset(ws, p) < Offset(ws, q)
  {
    if p < q {
      OffsetsIncrease(ws, p, q - 1);
      OffsetNext(ws, q - 1);
    }
  }

  /** Continuation bytes on their own are skipped one by one. */
  lemma {:induction false} TailsDecodeToNothing(t: seq<Byte>)
    requires AllTail(t)
    ensures DecodeText(t) == []
  {
    if t != [] {
      TailsDecodeToNothing(t[1..]);
    }
  }

  /** So is a character that is cut off. */
  lemma CutCharacter(u: Unit, k: nat)
    requires k < Len(u)
    ensures DecodeText(Encode(u)[..k]) == []
  {
    if k > 0 {
      var t := Encode(u)[..k];
      LeadFits(u);
      OneMeaning(t);
      assert DecodeOne(t).Bad?;
      assert t[1..] == Tail(u, Len(u) - 1)[..k - 1];
      TailsDecodeToNothing(t[1..]);
    }
  }

  /** The bytes of a character after its first one. */
  lemma InsideCharacter(u: Unit, i: nat, j: nat)
    requires 0 < i <= j <= Len(u)
    ensures AllTail(Encode(u)[i..j])
  {
    var tail := Tail(u, Len(u) - 1);
    forall k | i <= k < j ensures IsTail(Encode(u)[k]) {
      assert Encode(u)[k] == tail[k - 1];
    }
  }

  /** p is the first unit that starts at or after byte i. */
  predicate FirstFrom(ws: seq<Unit>, i: nat, p: nat) {
    p <= |ws| && i <= Offset(ws, p) && (p > 0 ==> Offset(ws, p - 1) < i)
  }

  /** q units end at or before byte j. */
  predicate EndBy(ws: seq<Unit>, j: nat, q: nat) {
    q <= |ws| && Offset(ws, q) <= j && (q < |ws| ==> j < Offset(ws, q + 1))
  }

  /** The cut of a text at two offsets. */
  lemma SlicePieces(ws: seq<Unit>, p: nat, q: nat)
    requires p <= q <= |ws|
    ensures Offset(ws, p) <= Offset(ws, q) <= |EncodeText(ws)|
    ensures EncodeText(ws)[Offset(ws, p)..Offset(ws, q)] == EncodeText(ws[p..q])
  {
    EncodeTextConcat(ws[..p], ws[p..q]);
    EncodeTextConcat(ws[..q], ws[q..]);
    assert ws[..q] == ws[..p] + ws[p..q];
    assert ws == ws[..q] + ws[q..];
  }

  /** A piece of one character, as a slice of the text. */
  lemma CharacterSlice(ws: seq<Unit>, p: nat, i: nat, j: nat)
    requires p < |ws| && Offset(ws, p) <= i <= j <= Offset(ws, p + 1)
    ensures Offset(ws, p + 1) == Offset(ws, p) + Len(ws[p]) <= |EncodeText(ws)|
    ensures EncodeText(ws)[i..j] == Encode(ws[p])[i - Offset(ws, p)..j - Offset(ws, p)]
  {
    OffsetNext(ws, p);
    var left, mid, right := EncodeText(ws[..p]), Encode(ws[p]), EncodeText(ws[p + 1..]);
    var m, n := i - |left|, j - |left|;
    assert (left + mid + right)[i..j] == mid[m..n];
  }

  /** A slice inside one character, without its first byte, decodes to nothing. */
  lemma InsideDecodes(ws: seq<Unit>, p: nat, i: nat, j: nat)
    requires p < |ws| && Offset(ws, p) < i <= j <= Offset(ws, p + 1)
    ensures j <= |EncodeText(ws)| && DecodeText(EncodeText(ws)[i..j]) == []
  {
    CharacterSlice(ws, p, i, j);
    InsideCharacter(ws[p], i - Offset(ws, p), j - Offset(ws, p));
    TailsDecodeToNothing(EncodeText(ws)[i..j]);
  }

  lemma OffsetInside(ws: seq<Unit>, p: nat)
    requires p <= |ws|
    ensures Offset(ws, p) <= |EncodeText(ws)|
  {
    OffsetsIncrease(ws, p, |ws|);
    assert ws[..|ws|] == ws;
  }

  /** The bytes before the first whole character of the slice decode to nothing. */
  lemma LeftEdge(ws: seq<Unit>, i: nat, p: nat)
    requires FirstFrom(ws, i, p)
    ensures Offset(ws, p) <= |EncodeText(ws)|
    ensures DecodeText(EncodeText(ws)[i..Offset(ws, p)]) == []
  {
    OffsetInside(ws, p);
    if p > 0 && i < Offset(ws, p) {
      InsideDecodes(ws, p - 1, i, Offset(ws, p));
    }
  }

  /** So do the bytes after the last one, which start a character if there are any. */
  lemma RightEdge(ws: seq<Unit>, j: nat, q: nat)
    requires EndBy(ws, j, q) && j <= |EncodeText(ws)|
    ensures DecodeText(EncodeText(ws)[Offset(ws, q)..j]) == []
    ensures StartsCharacter(EncodeText(ws)[Offset(ws, q)..j])
  {
    if q < |ws| {
      CharacterSlice(ws, q, Offset(ws, q), j);
      CutCharacter(ws[q], j - Offset(ws, q));
      EncodingStarts(ws[q]);
    } else {
      assert ws[..q] == ws;
    }
  }

  /**
    * Self-synchronisation: any slice of encoded text decodes to exactly the units whose
    * encodings lie wholly inside it.
    */
  lemma SliceTheorem(ws: seq<Unit>, i: nat, j: nat, p: nat, q: nat)
    requires i <= j <= |EncodeText(ws)| && FirstFrom(ws, i, p) && EndBy(ws, j, q)
    ensures DecodeText(EncodeText(ws)[i..j]) == if p <= q then ws[p..q] else []
  {
    if p <= q {
      SliceAcross(ws, i, j, p, q);
    } else {
      SliceWithin(ws, i, j, p, q);
    }
  }

  lemma SliceAcross(ws: seq<Unit>, i: nat, j: nat, p: nat, q: nat)
    requires i <= j <= |EncodeText(ws)| && FirstFrom(ws, i, p) && EndBy(ws, j, q) && p <= q
    ensures DecodeText(EncodeText(ws)[i..j]) == ws[p..q]
  {
    var bytes := EncodeText(ws);
    SlicePieces(ws, p, q);
    LeftEdge(ws, i, p);
    RightEdge(ws, j, q);
    var left, mid, right := bytes[i..Offset(ws, p)], EncodeText(ws[p..q]), bytes[Offset(ws, q)..j];
    ThreePieces(bytes, i, Offset(ws, p), Offset(ws, q), j);
    EncodeTextStarts(ws[p..q]);
    DecodeConcat(left + mid, right);
    DecodeConcatStarts(left, ws[p..q]);
  }

  lemma SliceWithin(ws: seq<Unit>, i: nat, j: nat, p: nat, q: nat)
    requires i <= j <= |EncodeText(ws)| && FirstFrom(ws, i, p) && EndBy(ws, j, q) && q < p
    ensures DecodeText(EncodeText(ws)[i..j]) == []
  {
    OffsetsIncrease(ws, q, p - 1);
    if q + 1 < p {
      OffsetsIncrease(ws, q + 1, p - 1);
    }
    InsideDecodes(ws, q, i, j);
  }

  lemma ThreePieces(bytes: seq<Byte>, i: nat, a: nat, b: nat, j: nat)
    requires i <= a <= b <= j <= |bytes|
    ensures bytes[i..j] == bytes[i..a] + bytes[a..b] + bytes[b..j]
  {
  }

  lemma DecodeConcatStarts(left: seq<Byte>, ws: seq<Unit>)
    ensures DecodeText(left + EncodeText(ws)) == DecodeText(left) + ws
  {
    EncodeTextStarts(ws);
    DecodeConcat(left, EncodeText(ws));
    DecodeOfEncode(ws);
  }

  /** Every slice has such bounds. */
  lemma {:induction false} SliceBoundsExist(ws: seq<Unit>, i: nat)
    requires i <= |EncodeText(ws)|
    ensures exists p :: FirstFrom(ws, i, p)
    ensures exists q :: EndBy(ws, i, q)
  {
    assert ws[..|ws|] == ws;
    assert FirstFrom(ws, i, BoundsUpTo(ws, i, |ws|).0);
    assert EndBy(ws, i, BoundsUpTo(ws, i, |ws|).1);
  }

  ghost function BoundsUpTo(ws: seq<Unit>, i: nat, n: nat): (r: (nat, nat))
    requires n <= |ws| && i <= Offset(ws, n)
    ensures FirstFrom(ws, i, r.0)
    ensures i < Offset(ws, n) || n == |ws| ==> EndBy(ws, i, r.1)
    decreases n
  {
    if n == 0 then (0, 0)
    else
      OffsetNext(ws, n - 1);
      if i <= Offset(ws, n - 1) then
        var (p, q) := BoundsUpTo(ws, i, n - 1);
        (p, if i == Offset(ws, n - 1) then n - 1 else q)
      else (n, if i == Offset(ws, n) then n else n - 1)
  }

  // ---------------------------------------------------------------- the output can exceed the budget

  /** The output fits a budget if ASCII only comes last. */
  lemma {:induction false} FitsIfAsciiIsLast(ws: seq<Unit>, maxlen: nat)
    requires forall i :: 0 <= i < |ws| - 1 ==> !Ascii(ws[i])
    ensures |EncodeText(Kept(ws, maxlen))| <= maxlen
  {
    if ws != [] && maxlen > 0 {
      var rest := ws[1..];
      if |ws| == 1 {
        assert Kept(rest, maxlen) == Kept(rest, maxlen - 1) == [];
        EncodeTextCons(ws[0], []);
      } else if Len(ws[0]) <= maxlen {
        FitsIfAsciiIsLast(rest, maxlen - Len(ws[0]));
        EncodeTextCons(ws[0], Kept(rest, maxlen - Len(ws[0])));
      } else {
        FitsIfAsciiIsLast(rest, maxlen - 1);
      }
    }
  }

  /** Otherwise some budget is exceeded. */
  lemma {:induction false} OverflowsAfterAscii(ws: seq<Unit>, i: nat) returns (maxlen: nat)
    requires i + 1 < |ws| && Ascii(ws[i]) && forall j :: 0 <= j < i ==> !Ascii(ws[j])
    ensures maxlen > 0 && |EncodeText(Kept(ws, maxlen))| > maxlen
  {
    var rest := ws[1..];
    if i > 0 {
      var m := OverflowsAfterAscii(rest, i - 1);
      maxlen := Len(ws[0]) + m;
      EncodeTextCons(ws[0], Kept(rest, m));
    } else {
      maxlen := Len(ws[1]);
      var left := if Ascii(ws[1]) then maxlen else 0;
      assert Kept(ws, maxlen) == [ws[0]] + ([ws[1]] + Kept(rest[1..], left));
      EncodeTextCons(ws[1], Kept(rest[1..], left));
      EncodeTextCons(ws[0], [ws[1]] + Kept(rest[1..], left));
    }
  }

  /**
    * The output of utf8_wcstombs stays within every budget if and only if no ASCII unit is
    * followed by another unit: the ASCII branch does not charge the budget.
    */
  lemma FitsEveryBudget(ws: seq<Unit>)
    ensures (forall maxlen: nat :: |EncodeText(Kept(ws, maxlen))| <= maxlen)
       <==> (forall i :: 0 <= i < |ws| - 1 ==> !Ascii(ws[i]))
  {
    if forall i :: 0 <= i < |ws| - 1 ==> !Ascii(ws[i]) {
      forall maxlen: nat ensures |EncodeText(Kept(ws, maxlen))| <= maxlen {
        FitsIfAsciiIsLast(ws, maxlen);
      }
    } else {
      var i := FirstAscii(ws);
      var maxlen := OverflowsAfterAscii(ws, i);
    }
  }

  /** What is left of the budget when the loop stops. */
  function Leftover(ws: seq<Unit>, maxlen: nat): nat {
    if ws == [] || maxlen == 0 then maxlen
    else if Ascii(ws[0]) then Leftover(ws[1..], maxlen)
    else if Len(ws[0]) <= maxlen then Leftover(ws[1..], maxlen - Len(ws[0]))
    else Leftover(ws[1..], maxlen - 1)
  }

  /** Every ASCII unit that is read is kept. */
  lemma {:induction false} AsciiIsKept(ws: seq<Unit>, maxlen: nat)
    ensures AsciiUnits(Kept(ws, maxlen)) == AsciiUnits(ws[..Visited(ws, maxlen)])
    ensures MultiBytes(Kept(ws, maxlen)) + (Visited(ws, maxlen) - |Kept(ws, maxlen)|) + Leftover(ws, maxlen) == maxlen
  {
    if ws != [] && maxlen > 0 {
      var x, rest := ws[0], ws[1..];
      var left := if Ascii(x) then maxlen else if Len(x) <= maxlen then maxlen - Len(x) else maxlen - 1;
      AsciiIsKept(rest, left);
      var seen := rest[..Visited(rest, left)];
      assert ws[..Visited(ws, maxlen)] == [x] + seen;
      assert ([x] + seen)[1..] == seen;
      assert ([x] + Kept(rest, left))[1..] == Kept(rest, left);
    }
  }

  /**
    * One string and one budget: the output takes the budget, without what is left of it and
    * without one per unit skipped, and one byte more per ASCII unit read. So it fits if and only
    * if no more ASCII units are read than units are skipped and budget is left.
    */
  lemma FitsThisBudget(ws: seq<Unit>, maxlen: nat)
    ensures var visited := Visited(ws, maxlen);
            var skipped := visited - |Kept(ws, maxlen)|;
            && 0 <= skipped
            && |EncodeText(Kept(ws, maxlen))| == maxlen - Leftover(ws, maxlen) - skipped + AsciiUnits(ws[..visited])
            && (|EncodeText(Kept(ws, maxlen))| <= maxlen <==>
                AsciiUnits(ws[..visited]) <= skipped + Leftover(ws, maxlen))
  {
    AsciiIsKept(ws, maxlen);
    EncodedLength(Kept(ws, maxlen));
    SkippedUnits(ws, maxlen);
  }

  lemma {:induction false} SkippedUnits(ws: seq<Unit>, maxlen: int)
    ensures |Kept(ws, maxlen)| <= Visited(ws, maxlen)
  {
    if ws != [] && maxlen > 0 {
      var x := ws[0];
      var left := if Ascii(x) then maxlen else if Len(x) <= maxlen then maxlen - Len(x) else maxlen - 1;
      SkippedUnits(ws[1..], left);
    }
  }

  /**
    * The greedy choice: as long as budget is left, the next unit is written if it is ASCII or
    * fits, and otherwise costs one; without budget nothing more is written.
    */
  lemma {:induction false} KeptNext(ws: seq<Unit>, u: Unit, maxlen: nat)
    ensures var left := Leftover(ws, maxlen);
            && Kept(ws + [u], maxlen) == Kept(ws, maxlen) + (if left > 0 && (u < 0x80 || |Encode(u)| <= left) then [u] else [])
            && Leftover(ws + [u], maxlen) ==
               if left == 0 || u < 0x80 then left else if |Encode(u)| <= left then left - |Encode(u)| else left - 1
    ensures Kept([], maxlen) == [] && Leftover([], maxlen) == maxlen
  {
    if ws == [] {
      assert ([] + [u])[1..] == [];
    } else if maxlen > 0 {
      var x := ws[0];
      var left := if Ascii(x) then maxlen else if Len(x) <= maxlen then maxlen - Len(x) else maxlen - 1;
      assert (ws + [u])[0] == x && (ws + [u])[1..] == ws[1..] + [u];
      KeptNext(ws[1..], u, left);
    }
  }

  /** The charges of the units before position k stay below the budget, and those up to it reach it. */
  predicate IsCut(ws: seq<Unit>, maxlen: nat, k: nat) {
    0 < k <= |ws| && MultiBytes(ws[..k - 1]) < maxlen <= MultiBytes(ws[..k])
  }

  /** The next multi-byte unit, or the end. */
  function NextMulti(ws: seq<Unit>, k: nat): (j: nat)
    requires k <= |ws|
    ensures k <= j <= |ws|
    ensures forall i :: k <= i < j ==> Ascii(ws[i])
    ensures j < |ws| ==> !Ascii(ws[j])
    decreases |ws| - k
  {
    if k == |ws| || !Ascii(ws[k]) then k else NextMulti(ws, k + 1)
  }

  /**
    * What may precede the cut: no ASCII unit if the unit at the cut just fits, one if one byte
    * of budget is left for it, and two in all up to the next multi-byte unit if it needs three
    * bytes and two are left.
    */
  predicate FitsAtCut(ws: seq<Unit>, maxlen: nat, k: nat)
    requires IsCut(ws, maxlen, k)
  {
    var room := maxlen - MultiBytes(ws[..k - 1]);
    if Len(ws[k - 1]) == room then AsciiUnits(ws[..k]) == 0
    else if room == 1 then AsciiUnits(ws[..k]) <= 1
    else AsciiUnits(ws[..NextMulti(ws, k)]) <= 2
  }

  lemma {:induction false} UnitsConcat(a: seq<Unit>, b: seq<Unit>)
    ensures MultiBytes(a + b) == MultiBytes(a) + MultiBytes(b)
    ensures AsciiUnits(a + b) == AsciiUnits(a) + AsciiUnits(b)
  {
    if a == [] {
      assert a + b == b;
    } else {
      UnitsConcat(a[1..], b);
      assert (a + b)[1..] == a[1..] + b;
    }
  }

  lemma {:induction false} OnlyAscii(ws: seq<Unit>)
    requires forall i :: 0 <= i < |ws| ==> Ascii(ws[i])
    ensures MultiBytes(ws) == 0 && AsciiUnits(ws) == |ws|
  {
    if ws != [] {
      OnlyAscii(ws[1..]);
    }
  }

  lemma OneUnit(u: Unit)
    ensures MultiBytes([u]) == (if Ascii(u) then 0 else Len(u)) && AsciiUnits([u]) == if Ascii(u) then 1 else 0
  {
    assert [u][1..] == [];
  }

  /** As long as the charges stay below the budget, nothing is left out. */
  lemma {:induction false} KeptSplit(ws: seq<Unit>, j: nat, maxlen: nat)
    requires j <= |ws| && MultiBytes(ws[..j]) < maxlen
    ensures Kept(ws, maxlen) == ws[..j] + Kept(ws[j..], maxlen - MultiBytes(ws[..j]))
  {
    if j > 0 {
      var rest := ws[1..];
      assert ws[..j][1..] == rest[..j - 1] && ws[j..] == rest[j - 1..];
      var left := if Ascii(ws[0]) then maxlen else maxlen - Len(ws[0]);
      KeptSplit(rest, j - 1, left);
      assert ws[..j] == [ws[0]] + rest[..j - 1];
      Associative([ws[0]], rest[..j - 1], Kept(ws[j..], maxlen - MultiBytes(ws[..j])));
    }
  }

  /** With one byte of budget left, ASCII units are written up to the next multi-byte unit. */
  lemma {:induction false} KeptLast(ws: seq<Unit>, k: nat)
    requires k <= |ws|
    ensures Kept(ws[k..], 1) == ws[k..NextMulti(ws, k)]
    decreases |ws| - k
  {
    if k < |ws| {
      assert ws[k..][1..] == ws[k + 1..];
      if Ascii(ws[k]) {
        KeptLast(ws, k + 1);
        assert ws[k..NextMulti(ws, k)] == [ws[k]] + ws[k + 1..NextMulti(ws, k)];
      }
    }
  }

  /** What is written from the cut on. */
  lemma KeptAtCut(ws: seq<Unit>, maxlen: nat, k: nat)
    requires IsCut(ws, maxlen, k)
    ensures var room := maxlen - MultiBytes(ws[..k - 1]); var u := ws[k - 1];
            && !Ascii(u) && 0 < room <= Len(u)
            && Kept(ws[k - 1..], room) ==
               (if Len(u) == room then [u] else if room == 1 then [] else ws[k..NextMulti(ws, k)])
            && (Len(u) == room || room == 1 || room == 2)
  {
    var u, room := ws[k - 1], maxlen - MultiBytes(ws[..k - 1]);
    assert ws[..k] == ws[..k - 1] + [u];
    UnitsConcat(ws[..k - 1], [u]);
    OneUnit(u);
    assert ws[k - 1..][1..] == ws[k..];
    if Len(u) != room && room != 1 {
      UnitInRange(u);
      KeptLast(ws, k);
    }
  }

  lemma AsciiBeforeCut(ws: seq<Unit>, k: nat)
    requires 0 < k <= |ws| && !Ascii(ws[k - 1])
    ensures AsciiUnits(ws[..k]) == AsciiUnits(ws[..k - 1])
    ensures var j := NextMulti(ws, k);
            && AsciiUnits(ws[..j]) == AsciiUnits(ws[..k - 1]) + (j - k)
            && MultiBytes(ws[k..j]) == 0 && AsciiUnits(ws[k..j]) == j - k
  {
    var p, u, j := ws[..k - 1], ws[k - 1], NextMulti(ws, k);
    assert ws[..k] == p + [u];
    UnitsConcat(p, [u]);
    OneUnit(u);
    OnlyAscii(ws[k..j]);
    assert ws[..j] == ws[..k] + ws[k..j];
    UnitsConcat(ws[..k], ws[k..j]);
  }

  lemma CutSize(ws: seq<Unit>, maxlen: nat, k: nat)
    requires IsCut(ws, maxlen, k)
    ensures |EncodeText(Kept(ws, maxlen))| <= maxlen <==> FitsAtCut(ws, maxlen, k)
  {
    var p, u := ws[..k - 1], ws[k - 1];
    var last := Kept(ws[k - 1..], maxlen - MultiBytes(p));
    KeptSplit(ws, k - 1, maxlen);
    KeptAtCut(ws, maxlen, k);
    EncodedLength(p + last);
    UnitsConcat(p, last);
    OneUnit(u);
    AsciiBeforeCut(ws, k);
  }

  lemma {:induction false} CutExists(ws: seq<Unit>, maxlen: nat, n: nat)
    requires n <= |ws| && 0 < maxlen <= MultiBytes(ws[..n])
    ensures exists k :: IsCut(ws, maxlen, k)
    decreases n
  {
    if n > 0 {
      if MultiBytes(ws[..n - 1]) >= maxlen {
        CutExists(ws, maxlen, n - 1);
      } else {
        assert IsCut(ws, maxlen, n);
      }
    }
  }

  /**
    * The same condition in terms of the string: if its multi-byte units stay below the budget,
    * the whole encoding has to fit; otherwise what precedes the unit that reaches the budget
    * decides. An ASCII prefix is what makes the output too long.
    */
  lemma FitsByPrefix(ws: seq<Unit>, maxlen: nat)
    ensures |EncodeText(Kept(ws, maxlen))| <= maxlen <==>
            if maxlen == 0 then true
            else if MultiBytes(ws) < maxlen then |EncodeText(ws)| <= maxlen
            else exists k :: IsCut(ws, maxlen, k) && FitsAtCut(ws, maxlen, k)
  {
    if maxlen > 0 {
      if MultiBytes(ws) < maxlen {
        KeepsAll(ws, maxlen);
      } else {
        assert ws[..|ws|] == ws;
        CutExists(ws, maxlen, |ws|);
        forall k | IsCut(ws, maxlen, k)
          ensures |EncodeText(Kept(ws, maxlen))| <= maxlen <==> FitsAtCut(ws, maxlen, k)
        {
          CutSize(ws, maxlen, k);
        }
      }
    }
  }

  lemma FirstAscii(ws: seq<Unit>) returns (i: nat)
    requires exists k :: 0 <= k < |ws| - 1 && Ascii(ws[k])
    ensures i + 1 < |ws| && Ascii(ws[i]) && forall j :: 0 <= j < i ==> !Ascii(ws[j])
  {
    i := 0;
    while !Ascii(ws[i])
      invariant i + 1 < |ws| && forall j :: 0 <= j < i ==> !Ascii(ws[j])
      decreases |ws| - i
    {
      i := i + 1;
    }
  }

  // ---------------------------------------------------------------- bounds of the decoder

  /** With the first NUL at z, at most min(n, z) units come out. */
  lemma UnitsBounded(s: seq<Byte>, n: int, z: nat)
    requires z < |s| && s[z] == 0
    ensures |MbsToWcs(s, n)| <= z
    ensures n >= 0 ==> |MbsToWcs(s, n)| <= n
    ensures n <= 0 ==> MbsToWcs(s, n) == []
  {
    var t := Text(s, n);
    AtMostOneUnitPerByte(t);
  }
}
