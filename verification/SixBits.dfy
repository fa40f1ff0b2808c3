/** Characters of bitstrings: six bits each, stored as the distance from a blank. */
module SixBits {
  type Char = bv8

  const ALL: Char := 0x3f

  function OneBit(k: nat): Char
    requires k < 8
  {
    1 << k
  }

  predicate Has(c: Char, k: nat)
    requires k < 6
  {
    c & OneBit(k) != 0
  }

  predicate Legal(s: seq<Char>) {
    forall i :: 0 <= i < |s| ==> s[i] <= ALL
  }

  /** Bit `p` of a bitstring; beyond its end no bit is set. */
  predicate Bit(s: seq<Char>, p: int) {
    0 <= p < 6 * |s| && Has(s[p / 6], p % 6)
  }

  /** What is read at position `i`: behind the last character a string ends with a null character. */
  function CharAt(s: seq<Char>, i: nat): Char {
    if i < |s| then s[i] else 0xe0
  }

  lemma Table(k: nat)
    requires k < 6
    ensures OneBit(k) == (if k == 0 then 0x01 else if k == 1 then 0x02 else if k == 2 then 0x04
                          else if k == 3 then 0x08 else if k == 4 then 0x10 else 0x20)
  {
    if k == 0 {
      assert OneBit(0) == 0x01;
    } else if k == 1 {
      assert OneBit(1) == 0x02;
    } else if k == 2 {
      assert OneBit(2) == 0x04;
    } else if k == 3 {
      assert OneBit(3) == 0x08;
    } else if k == 4 {
      assert OneBit(4) == 0x10;
    } else {
      assert OneBit(5) == 0x20;
    }
  }

  lemma NextMask(k: nat)
    requires k < 6
    ensures OneBit(k) << 1 == OneBit(k + 1)
  {
    Table(k);
    if k < 5 {
      Table(k + 1);
    } else {
      assert OneBit(6) == 0x40;
    }
  }

  lemma PreviousMask(k: nat)
    requires 0 < k < 6
    ensures OneBit(k) >> 1 == OneBit(k - 1)
  {
    Table(k);
    Table(k - 1);
  }

  /** A character is blank exactly if none of its bits is set. */
  lemma Blank(c: Char)
    requires c <= ALL && forall k: nat :: k < 6 ==> !Has(c, k)
    ensures c == 0
  {
    Table(0);
    Table(1);
    Table(2);
    Table(3);
    Table(4);
    Table(5);
    assert !Has(c, 0) && !Has(c, 1) && !Has(c, 2) && !Has(c, 3) && !Has(c, 4) && !Has(c, 5);
  }

  lemma NoBits(k: nat)
    requires k < 6
    ensures !Has(0, k)
  {
    Table(k);
  }

  /** The low bits of one character and the high bits of another. */
  function Mixed(low: Char, high: Char, s: nat): Char
    requires s < 8
  {
    (low & (OneBit(s) - 1)) | (high & !(OneBit(s) - 1))
  }

  /** The bits of a mask for the low bits. */
  lemma MaskBit(s: nat, k: nat)
    requires s < 6 && k < 6
    ensures (OneBit(s) - 1) & OneBit(k) == if k < s then OneBit(k) else 0
  {
    Table(s);
    Table(k);
  }

  lemma SelectBit(low: Char, high: Char, m: Char, b: Char)
    requires m & b == b || m & b == 0
    ensures ((low & m) | (high & !m)) & b == if m & b == b then low & b else high & b
  {
  }

  lemma SelectLegal(low: Char, high: Char, m: Char)
    requires low <= ALL && high <= ALL
    ensures (low & m) | (high & !m) <= ALL
  {
  }

  lemma MixedBits(low: Char, high: Char, s: nat, k: nat)
    requires s < 6 && k < 6 && low <= ALL && high <= ALL
    ensures Has(Mixed(low, high, s), k) == (if k < s then Has(low, k) else Has(high, k)) && Mixed(low, high, s) <= ALL
  {
    hide OneBit;
    MaskBit(s, k);
    SelectBit(low, high, OneBit(s) - 1, OneBit(k));
    SelectLegal(low, high, OneBit(s) - 1);
    OneBitSet(k);
  }

  lemma OneBitSet(k: nat)
    requires k < 6
    ensures OneBit(k) != 0
  {
    Table(k);
  }

  /** The mask for a length that ends inside the character has no effect on the mask it is applied to. */
  lemma LengthMaskLost(s: nat, len: nat)
    requires 0 < s && 0 < len < 6 - s
    ensures var len2 := 6 - s - len;
            (OneBit(s) - 1) & !((OneBit(len2) - 1) << (6 - len2)) == OneBit(s) - 1
  {
    Table(s);
    Table(6 - s - len);
  }

  lemma LowBits(c: Char, n: nat, k: nat)
    requires n < 6 && k < 6 && c <= ALL
    ensures Has(c & (OneBit(n) - 1), k) == (k < n && Has(c, k)) && c & (OneBit(n) - 1) <= ALL
  {
    Table(n);
    Table(k);
  }

  lemma SetBit(c: Char, n: nat, k: nat)
    requires n < 6 && k < 6 && c <= ALL
    ensures Has(c | OneBit(n), k) == (k == n || Has(c, k)) && c | OneBit(n) <= ALL
    ensures Has(c & !OneBit(n), k) == (k != n && Has(c, k)) && c & !OneBit(n) <= ALL
  {
    Table(n);
    Table(k);
  }

  /** Six bits out of two characters, from bit `s` of the first one on. */
  function Straddling(first: Char, second: Char, s: nat): Char
    requires 0 < s < 6
  {
    var len2 := 6 - s;
    var getmask1 := (OneBit(len2) - 1) << (6 - len2);
    var getmask2 := OneBit(6 - len2) - 1;
    ((first & getmask1) >> (6 - len2)) | ((second & getmask2) << len2)
  }

  lemma HighBit(c: Char, s: nat, k: nat)
    requires 0 < s < 6 && k < 6 && c <= ALL
    ensures var r := (c & ((OneBit(6 - s) - 1) << s)) >> s; Has(r, k) == (k < 6 - s && Has(c, k + s))
  {
    Table(s);
    Table(k);
    Table(6 - s);
  }

  lemma HighBitsLegal(c: Char, s: nat)
    requires 0 < s < 6 && c <= ALL
    ensures (c & ((OneBit(6 - s) - 1) << s)) >> s <= ALL
  {
    Table(s);
    Table(6 - s);
  }

  lemma LowBit(c: Char, s: nat, k: nat)
    requires 0 < s < 6 && k < 6 && c <= ALL
    ensures var r := (c & (OneBit(s) - 1)) << (6 - s); Has(r, k) == (k >= 6 - s && Has(c, k - (6 - s)))
  {
    Table(s);
    Table(k);
    Table(6 - s);
  }

  lemma LowBitsLegal(c: Char, s: nat)
    requires 0 < s < 6 && c <= ALL
    ensures (c & (OneBit(s) - 1)) << (6 - s) <= ALL
  {
    Table(s);
    Table(6 - s);
  }

  lemma EitherBit(a: Char, b: Char, k: nat)
    requires k < 6 && a <= ALL && b <= ALL
    ensures Has(a | b, k) == (Has(a, k) || Has(b, k)) && a | b <= ALL
  {
    hide OneBit;
    var c := OneBit(k);
    assert (a | b) & c == (a & c) | (b & c);
  }

  lemma StraddlingBits(first: Char, second: Char, s: nat, k: nat)
    requires 0 < s < 6 && k < 6 && first <= ALL && second <= ALL
    ensures Has(Straddling(first, second, s), k) == if k < 6 - s then Has(first, k + s) else Has(second, k - (6 - s))
    ensures Straddling(first, second, s) <= ALL
  {
    hide OneBit, Has;
    HighBit(first, s, k);
    LowBit(second, s, k);
    HighBitsLegal(first, s);
    LowBitsLegal(second, s);
    EitherBit((first & ((OneBit(6 - s) - 1) << s)) >> s, (second & (OneBit(s) - 1)) << (6 - s), k);
  }
}
