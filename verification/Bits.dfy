/** The bits of a 32-bit word, and the loop that counts them. */
module Bits {
  /** Bit `n` of `w`, one case per position: by `BitIsMask`, whether `w & (1 << n)` is not zero. */
  predicate Bit(w: bv32, n: nat)
    requires n < 32
  {
    match n
    case 0 => w & 0x1 != 0
    case 1 => w & 0x2 != 0
    case 2 => w & 0x4 != 0
    case 3 => w & 0x8 != 0
    case 4 => w & 0x10 != 0
    case 5 => w & 0x20 != 0
    case 6 => w & 0x40 != 0
    case 7 => w & 0x80 != 0
    case 8 => w & 0x100 != 0
    case 9 => w & 0x200 != 0
    case 10 => w & 0x400 != 0
    case 11 => w & 0x800 != 0
    case 12 => w & 0x1000 != 0
    case 13 => w & 0x2000 != 0
    case 14 => w & 0x4000 != 0
    case 15 => w & 0x8000 != 0
    case 16 => w & 0x10000 != 0
    case 17 => w & 0x20000 != 0
    case 18 => w & 0x40000 != 0
    case 19 => w & 0x80000 != 0
    case 20 => w & 0x100000 != 0
    case 21 => w & 0x200000 != 0
    case 22 => w & 0x400000 != 0
    case 23 => w & 0x800000 != 0
    case 24 => w & 0x1000000 != 0
    case 25 => w & 0x2000000 != 0
    case 26 => w & 0x4000000 != 0
    case 27 => w & 0x8000000 != 0
    case 28 => w & 0x10000000 != 0
    case 29 => w & 0x20000000 != 0
    case 30 => w & 0x40000000 != 0
    case _ => w & 0x80000000 != 0
  }

  /** The bits of `w`, least significant first. */
  function BitSeq(w: bv32): (s: seq<bool>)
    ensures |s| == 32
  {
    seq(32, n requires 0 <= n < 32 => Bit(w, n))
  }

  /** The positions at which `s` holds. */
  function Trues(s: seq<bool>): set<nat> {
    set n: nat | n < |s| && s[n]
  }

  /** The positions of the bits that are set in `w`. */
  function SetBits(w: bv32): set<nat> {
    Trues(BitSeq(w))
  }

  // ---------- Positions ----------

  lemma BitIsMask0(w: bv32, n: nat)
    requires 0 <= n < 8
    ensures Bit(w, n) <==> w & ((1 as bv32) << n) != 0
  {
  }

  lemma BitIsMask8(w: bv32, n: nat)
    requires 8 <= n < 16
    ensures Bit(w, n) <==> w & ((1 as bv32) << n) != 0
  {
  }

  lemma BitIsMask16(w: bv32, n: nat)
    requires 16 <= n < 20
    ensures Bit(w, n) <==> w & ((1 as bv32) << n) != 0
  {
  }

  lemma BitIsMask20(w: bv32, n: nat)
    requires 20 <= n < 24
    ensures Bit(w, n) <==> w & ((1 as bv32) << n) != 0
  {
  }

  lemma BitIsMask24(w: bv32, n: nat)
    requires 24 <= n < 32
    ensures Bit(w, n) <==> w & ((1 as bv32) << n) != 0
  {
  }

  /** The membership test of the source, `w & (1 << n)`, reads bit `n`. */
  lemma BitIsMask(w: bv32, n: nat)
    requires n < 32
    ensures Bit(w, n) <==> w & ((1 as bv32) << n) != 0
  {
    if n < 8 {
      BitIsMask0(w, n);
    } else if n < 16 {
      BitIsMask8(w, n);
    } else if n < 20 {
      BitIsMask16(w, n);
    } else if n < 24 {
      BitIsMask20(w, n);
    } else {
      BitIsMask24(w, n);
    }
  }

  lemma HalfMask(w: bv32, m: bv32)
    requires m & 0x80000000 == 0
    ensures (w >> 1) & m != 0 <==> w & (m << 1) != 0
  {
  }

  lemma NextMask(n: nat)
    requires n < 31
    ensures (1 as bv32) << (n + 1) == ((1 as bv32) << n) << 1
    ensures ((1 as bv32) << n) & 0x80000000 == 0
  {
  }

  lemma HalfBit(w: bv32, n: nat)
    requires n < 31
    ensures Bit(w >> 1, n) <==> Bit(w, n + 1)
  {
    BitIsMask(w >> 1, n);
    BitIsMask(w, n + 1);
    NextMask(n);
    HalfMask(w, (1 as bv32) << n);
  }

  lemma EndBits(w: bv32)
    ensures Bit(w, 0) <==> w & 1 != 0
    ensures !Bit(w >> 1, 31)
  {
  }

  lemma BitSeqHalf(w: bv32)
    ensures BitSeq(w)[0] == (w & 1 != 0)
    ensures BitSeq(w >> 1) == BitSeq(w)[1..] + [false]
  {
    EndBits(w);
    var h := w >> 1;
    forall n: nat | n < 31
      ensures Bit(h, n) <==> Bit(w, n + 1)
    {
      HalfBit(w, n);
    }
  }

  lemma ZeroHasNoBits()
    ensures SetBits(0) == {}
  {
  }

  // ---------- Clearing the lowest bit ----------

  /** `c` is what one turn of Kernighan's loop leaves of `w`. */
  predicate Cleared(w: bv32, c: bv32) {
    c == w & (w - 1)
  }

  lemma ClearedOdd(w: bv32, c: bv32)
    requires w & 1 != 0 && Cleared(w, c)
    ensures c & 1 == 0 && c >> 1 == w >> 1
  {
  }

  lemma DecrementEven(w: bv32)
    requires w & 1 == 0 && w != 0
    ensures (w - 1) >> 1 == (w >> 1) - 1
  {
  }

  lemma ShiftConjunction(w: bv32, v: bv32)
    ensures (w & v) >> 1 == (w >> 1) & (v >> 1)
  {
  }

  lemma ClearedEven(w: bv32, c: bv32)
    requires w & 1 == 0 && w != 0 && Cleared(w, c)
    ensures c & 1 == 0 && Cleared(w >> 1, c >> 1)
  {
    DecrementEven(w);
    ShiftConjunction(w, w - 1);
  }

  lemma HalfOfEven(w: bv32)
    requires w & 1 == 0 && w != 0
    ensures w >> 1 != 0 && w >> 1 < w
  {
  }

  /** The entry at `n` is the first of `s` that holds, and `c` is `s` without it. */
  predicate DropsFirst(s: seq<bool>, c: seq<bool>, n: nat) {
    && n < |s|
    && s[n]
    && (forall j :: 0 <= j < n ==> !s[j])
    && c == s[n := false]
  }

  lemma DropsFirstOdd(s: seq<bool>, c: seq<bool>)
    requires |s| == |c| == 32 && s[0] && !c[0]
    requires s[1..] + [false] == c[1..] + [false]
    ensures DropsFirst(s, c, 0)
  {
    assert s[1..] == (s[1..] + [false])[..31] == c[1..];
    assert c == [false] + c[1..];
  }

  lemma DropsFirstEven(s: seq<bool>, c: seq<bool>, n: nat)
    requires |s| == |c| == 32 && !s[0] && !c[0]
    requires DropsFirst(s[1..] + [false], c[1..] + [false], n)
    ensures DropsFirst(s, c, n + 1)
  {
    var hs, hc := s[1..] + [false], c[1..] + [false];
    assert n < 31;
    var t := s[n + 1 := false];
    forall j | 0 <= j < 32
      ensures c[j] == t[j]
      ensures j < n + 1 ==> !s[j]
    {
      if j > 0 {
        assert hs[j - 1] == s[j] && hc[j - 1] == c[j];
      }
    }
  }

  /** `w & (w - 1)` removes the lowest set bit, and no other. */
  lemma {:induction false} ClearsLowest(w: bv32, c: bv32) returns (n: nat)
    requires w != 0 && Cleared(w, c)
    ensures DropsFirst(BitSeq(w), BitSeq(c), n)
    decreases w
  {
    BitSeqHalf(w);
    BitSeqHalf(c);
    if w & 1 != 0 {
      ClearedOdd(w, c);
      DropsFirstOdd(BitSeq(w), BitSeq(c));
      n := 0;
    } else {
      ClearedEven(w, c);
      HalfOfEven(w);
      var m := ClearsLowest(w >> 1, c >> 1);
      DropsFirstEven(BitSeq(w), BitSeq(c), m);
      n := m + 1;
    }
  }

  lemma TruesOfDropped(s: seq<bool>, c: seq<bool>, n: nat)
    requires DropsFirst(s, c, n)
    ensures n in Trues(s) && Trues(c) == Trues(s) - {n}
    ensures forall j :: j in Trues(s) ==> n <= j
  {
  }

  /** Kernighan's loop turns once for each bit that is set. */
  method BitsSet(w: bv32) returns (c: nat)
    ensures c == |SetBits(w)|
  {
    c := 0;
    var word := w;
    while word != 0
      invariant c + |SetBits(word)| == |SetBits(w)|
      decreases |SetBits(word)|
    {
      ghost var n := ClearsLowest(word, word & (word - 1));
      TruesOfDropped(BitSeq(word), BitSeq(word & (word - 1)), n);
      word := word & (word - 1);
      c := c + 1;
    }
    ZeroHasNoBits();
  }

  // ---------- Counting from the top ----------

  /** The number of entries of `s` that hold, at positions `lo` and above. */
  function TruesFrom(s: seq<bool>, lo: nat): nat
    requires lo <= |s|
    decreases |s| - lo
  {
    if lo == |s| then 0 else (if s[lo] then 1 else 0) + TruesFrom(s, lo + 1)
  }

  lemma {:induction false} TruesFromCounts(s: seq<bool>, lo: nat)
    requires lo <= |s|
    ensures TruesFrom(s, lo) == |set n: nat | lo <= n < |s| && s[n]|
    decreases |s| - lo
  {
    var from := set n: nat | lo <= n < |s| && s[n];
    if lo == |s| {
      assert from == {};
    } else {
      var above := set n: nat | lo + 1 <= n < |s| && s[n];
      TruesFromCounts(s, lo + 1);
      assert from == above + (if s[lo] then {lo} else {});
    }
  }

  /** The number of bits set at positions `lo` and above. */
  function OnesFrom(w: bv32, lo: nat): nat
    requires lo <= 32
  {
    TruesFrom(BitSeq(w), lo)
  }

  lemma OnesFromStep(w: bv32, lo: nat)
    requires lo <= 32
    ensures OnesFrom(w, lo) == if lo == 32 then 0 else (if Bit(w, lo) then 1 else 0) + OnesFrom(w, lo + 1)
  {
  }

  lemma OnesFromZero(w: bv32)
    ensures OnesFrom(w, 0) == |SetBits(w)|
  {
    TruesFromCounts(BitSeq(w), 0);
    var s := BitSeq(w);
    assert Trues(s) == set n: nat | 0 <= n < |s| && s[n];
  }
}
