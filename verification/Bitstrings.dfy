/** Functions on bitstrings: the last set bit, the next bit, and copying ranges of bits. */
module Bitstrings {
  import opened Wrappers
  import opened SixBits
  import opened CopyBits

  // ----- the last bit

  /** The highest of the first `n` bits that is set, or -1. */
  function TopBit(c: Char, n: nat): (bit: int)
    requires n <= 6
    ensures -1 <= bit < n && (bit >= 0 ==> Has(c, bit))
    ensures forall k: nat :: bit < k < n ==> !Has(c, k)
  {
    if n == 0 then -1 else if Has(c, n - 1) then n - 1 else TopBit(c, n - 1)
  }

  /** The highest set bit among the six low ones of a character, or -1. */
  method HighestBit(c: Char) returns (bit: int)
    ensures bit == TopBit(c, 6)
  {
    hide OneBit, TopBit;
    bit := 5;
    var pattern := OneBit(5);
    while pattern != 0 && c & pattern == 0
      invariant -1 <= bit < 6 && pattern == if bit >= 0 then OneBit(bit) else 0
      invariant TopBit(c, 6) == TopBit(c, bit + 1)
      decreases bit + 1
    {
      PatternDown(bit);
      TopStep(c, bit);
      pattern := pattern >> 1;
      bit := bit - 1;
    }
    TopStep(c, bit);
    if bit >= 0 {
      OneBitSet(bit);
    }
  }

  lemma TopStep(c: Char, bit: int)
    requires -1 <= bit < 6
    ensures TopBit(c, bit + 1)
            == if bit < 0 then -1 else if c & OneBit(bit) != 0 then bit else TopBit(c, bit)
  {
  }

  lemma PatternDown(bit: int)
    requires bit < 6
    ensures bit > 0 ==> OneBit(bit) >> 1 == OneBit(bit - 1)
    ensures bit == 0 ==> OneBit(bit) >> 1 == 0
    ensures bit >= 0 ==> OneBit(bit) != 0
  {
    if bit >= 0 {
      OneBitSet(bit);
      Table(bit);
    }
    if bit > 0 {
      PreviousMask(bit);
    }
  }

  /** No bit behind `pos` is set, and it is set itself unless it is -1. */
  ghost predicate IsLast(s: seq<Char>, pos: int) {
    pos >= -1 && (pos >= 0 ==> Bit(s, pos)) && forall p: int :: p > pos ==> !Bit(s, p)
  }

  /** The last character that is not blank, or -1. */
  function LastChar(s: seq<Char>): (i: int)
    ensures -1 <= i < |s| && (i >= 0 ==> s[i] != 0)
    ensures forall j :: i < j < |s| ==> s[j] == 0
  {
    if s == [] then -1 else if s[|s| - 1] != 0 then |s| - 1 else LastChar(s[..|s| - 1])
  }

  /** What is taken for the number of the last bit: that of the highest bit of the last character, without regard to
      whether there is one. */
  function LastNumber(s: seq<Char>): int {
    var i := LastChar(s);
    if i < 0 then -1 else 6 * i + TopBit(s[i], 6)
  }

  /** The last character has one of the six bits, or is the first one, or the last bit of the one before it is set. */
  predicate LastCharCounts(s: seq<Char>) {
    var i := LastChar(s);
    i <= 0 || s[i] & ALL != 0 || Has(s[i - 1], 5)
  }

  /** The number of the last set bit, or -1. A character that has none of the six bits but is not blank, which is an
      illegal one, misleads the search unless the bit before it is set. */
  method LastBit(s: seq<Char>) returns (pos: int)
    ensures pos == LastNumber(s)
    ensures IsLast(s, pos) <==> LastCharCounts(s)
    ensures Legal(s) ==> IsLast(s, pos)
  {
    pos := -1;
    var len := |s|;
    while len > 0 && s[len - 1] == 0
      invariant 0 <= len <= |s| && LastChar(s) == LastChar(s[..len])
    {
      assert s[..len][..len - 1] == s[..len - 1];
      len := len - 1;
    }
    if len > 0 {
      var bit := HighestBit(s[len - 1]);
      pos := 6 * (len - 1) + bit;
    }
    LastNumberIff(s);
    LegalCounts(s);
  }

  /** Behind the last character no bit is set. */
  lemma BlankBehind(s: seq<Char>, p: int)
    requires p >= 6 * (LastChar(s) + 1)
    ensures !Bit(s, p)
  {
    if p < 6 * |s| {
      NoBits(p % 6);
    }
  }

  lemma BitOf(s: seq<Char>, i: nat, k: nat)
    requires i < |s| && k < 6
    ensures Bit(s, 6 * i + k) <==> Has(s[i], k)
  {
    assert (6 * i + k) / 6 == i && (6 * i + k) % 6 == k;
  }

  /** The number is the one of the last bit exactly if the last character counts. */
  lemma LastNumberIff(s: seq<Char>)
    ensures IsLast(s, LastNumber(s)) <==> LastCharCounts(s)
  {
    hide Has, Bit, LastChar;
    var i := LastChar(s);
    forall p: int | p > LastNumber(s)
      ensures !Bit(s, p)
    {
      if p >= 6 * (i + 1) {
        BlankBehind(s, p);
      } else {
        BitOf(s, i, p - 6 * i);
      }
    }
    if i >= 0 {
      SomeBit(s[i]);
      var bit := TopBit(s[i], 6);
      if bit >= 0 {
        BitOf(s, i, bit);
      } else if i > 0 {
        BitOf(s, i - 1, 5);
      }
    }
  }

  /** A character has one of the six bits exactly if it has a highest one. */
  lemma SomeBit(c: Char)
    ensures c & ALL != 0 <==> TopBit(c, 6) >= 0
  {
    if TopBit(c, 6) == -1 {
      var low := c & ALL;
      LowPart(c, low);
      forall k: nat | k < 6
        ensures !Has(low, k)
      {
        assert !Has(c, k);
      }
      Blank(low);
    } else {
      Table(TopBit(c, 6));
    }
  }

  lemma LowPart(c: Char, low: Char)
    requires low == c & ALL
    ensures low <= ALL && forall k: nat :: k < 6 ==> Has(low, k) == Has(c, k)
  {
    forall k: nat | k < 6
      ensures Has(low, k) == Has(c, k)
    {
      Table(k);
    }
  }

  lemma LegalCounts(s: seq<Char>)
    ensures Legal(s) ==> LastCharCounts(s)
  {
    var i := LastChar(s);
    if i > 0 && Legal(s) {
      assert s[i] & ALL == s[i];
    }
  }

  /** An illegal last character: bit 5 is taken for the last one, but only bit 0 is set. */
  lemma IllegalMisleads()
    ensures var s: seq<Char> := [1, 0x40];
            LastNumber(s) == 5 && !IsLast(s, 5) && IsLast(s, 0)
  {
    var s: seq<Char> := [1, 0x40];
    SomeBit(s[1]);
    LastNumberIff(s);
    assert !Has(s[0], 5);
    forall p: int | p > 0
      ensures !Bit(s, p)
    {
      if p < 12 {
        Table(p % 6);
      }
    }
    assert Bit(s, 0);
  }

  // ----- the next bit

  /** The bits that are looked for. */
  ghost predicate Wanted(s: seq<Char>, p: int, findZero: bool) {
    0 <= p < 6 * |s| && Bit(s, p) != findZero
  }

  /** Look for a bit in one character, from the given position on. */
  method NextInChar(c: Char, start: nat, findZero: bool) returns (bit: nat)
    requires start < 6 && c <= ALL
    ensures start <= bit <= 6 && (bit < 6 ==> Has(c, bit) != findZero)
    ensures forall k: nat :: start <= k < bit ==> Has(c, k) == findZero
  {
    var invert: Char := if findZero then ALL else 0;
    var pattern := OneBit(start);
    bit := start;
    while bit < 6
      invariant start <= bit <= 6 && pattern == OneBit(bit)
      invariant forall k: nat :: start <= k < bit ==> Has(c, k) == findZero
    {
      Inverted(c, bit);
      if (c ^ invert) & pattern != 0 {
        return;
      }
      NextMask(bit);
      pattern := pattern << 1;
      bit := bit + 1;
    }
  }

  lemma Inverted(c: Char, k: nat)
    requires k < 6
    ensures (c ^ 0) & OneBit(k) != 0 <==> Has(c, k)
    ensures (c ^ ALL) & OneBit(k) != 0 <==> !Has(c, k)
  {
    Table(k);
  }

  /** The place of the next wanted bit after `start`, or -1; an illegal character on the way is an error. */
  method NextBit(s: seq<Char>, start: int, findZero: bool) returns (r: Result<int, Char>)
    ensures r.Ok? && r.value >= 0 ==> Wanted(s, r.value, findZero) && r.value > start
    ensures r.Ok? && r.value >= 0 ==> forall p :: start < p < r.value ==> !Wanted(s, p, findZero)
    ensures r.Ok? && r.value < 0 ==> r.value == -1 && forall p :: start < p ==> !Wanted(s, p, findZero)
    ensures r.Ok? <==> forall i: nat :: i < |s| && start < 6 * i + 5 && s[i] > ALL ==> exists p :: start < p < 6 * i && Wanted(s, p, findZero)
  {
    var bit, search := 0, 0;
    if start >= 0 && start % 6 == 5 {
      search := start / 6 + 1;
    } else if start >= 0 {
      bit, search := start % 6 + 1, start / 6;
    }
    ghost var from := 6 * search + bit;
    while search < |s|
      invariant 0 <= search && 0 <= bit < 6 && from <= 6 * search + bit && (from < 6 * search + bit ==> bit == 0)
      invariant from == if start < 0 then 0 else start + 1
      invariant forall p :: from <= p < 6 * search + bit ==> !Wanted(s, p, findZero)
      invariant forall i: nat :: i < |s| && i < search && start < 6 * i + 5 ==> s[i] <= ALL
    {
      if s[search] > ALL {
        return Err(s[search]);
      }
      var found := NextInChar(s[search], bit, findZero);
      forall p | 6 * search + bit <= p < 6 * search + found
        ensures !Wanted(s, p, findZero)
      {
        assert p / 6 == search && p % 6 == p - 6 * search;
      }
      if found < 6 {
        assert (6 * search + found) / 6 == search && (6 * search + found) % 6 == found;
        assert Wanted(s, 6 * search + found, findZero);
        return Ok(6 * search + found);
      }
      bit, search := 0, search + 1;
    }
    return Ok(-1);
  }

  // ----- copying

  const MAX_BITS := 6144
  const PINT_MAX := 0x7fff_ffff_ffff_ffff

  datatype BitsError =
    | SourceIndex(index: int) | DestIndex(index: int) | Length(length: int)
    | SourceChar(c: Char) | DestChar(c: Char)
    | NumericalLimit | TooBig(bits: int)

  /** The destination up to `ds`, then the source from `ss` on; with a length, the destination again behind it. */
  ghost predicate Spliced(dest: seq<Char>, ds: nat, src: seq<Char>, ss: nat, len: Option<nat>, p: int) {
    if p < ds || (len.Some? && p >= ds + len.value) then Bit(dest, p) else Bit(src, ss + p - ds)
  }

  /** Bits of the source behind the range get into the result: the range lies inside one character, begins on the same
      bit of a character in both strings, though not on the first, and no bit of the destination behind it is set. */
  ghost predicate Leaks(dest: seq<Char>, ds: nat, src: seq<Char>, ss: nat, len: Option<nat>, p: int) {
    && len.Some? && len.value > 0
    && ds % 6 == ss % 6 != 0 && len.value < 6 - ds % 6
    && (forall q: int :: q >= ds + len.value ==> !Bit(dest, q))
    && ds + len.value <= p < ds - ds % 6 + 6 && Bit(src, ss + p - ds)
  }

  ghost predicate SplicedUpToLeaks(r: seq<Char>, dest: seq<Char>, ds: nat, src: seq<Char>, ss: nat, len: Option<nat>) {
    Legal(r) && forall p: int :: p >= 0 ==> Bit(r, p) == (Spliced(dest, ds, src, ss, len, p) || Leaks(dest, ds, src, ss, len, p))
  }

  /** The result is the spliced string exactly if nothing leaks. */
  lemma SplicedIff(r: seq<Char>, dest: seq<Char>, ds: nat, src: seq<Char>, ss: nat, len: Option<nat>)
    requires SplicedUpToLeaks(r, dest, ds, src, ss, len)
    ensures ((forall p: int :: p >= 0 ==> Bit(r, p) == Spliced(dest, ds, src, ss, len, p))
             <==> !exists p :: Leaks(dest, ds, src, ss, len, p))
  {
    hide Bit;
    if p :| Leaks(dest, ds, src, ss, len, p) {
      assert !Spliced(dest, ds, src, ss, len, p);
    }
  }

  /** Look for an illegal character. */
  method IllegalChar(s: seq<Char>) returns (r: Option<Char>)
    ensures r.None? <==> Legal(s)
    ensures r.Some? ==> r.value in s && r.value > ALL
  {
    var i := 0;
    while i < |s|
      invariant 0 <= i <= |s| && forall k :: 0 <= k < i ==> s[k] <= ALL
    {
      if s[i] > ALL {
        return Some(s[i]);
      }
      i := i + 1;
    }
    return None;
  }

  /** Bits at the beginning of a blank string. */
  lemma BlankBits(n: nat)
    ensures var s := seq(n, _ => 0 as Char); Legal(s) && forall p: int :: !Bit(s, p)
  {
    var s := seq(n, _ => 0 as Char);
    forall p: int | 0 <= p < 6 * n
      ensures !Bit(s, p)
    {
      NoBits(p % 6);
    }
  }

  /** What the result holds after the first part of the destination and the range of the source have been copied: behind
      the range there may be bits of the source which are not wanted. */
  ghost predicate TwoParts(r: seq<Char>, dest: seq<Char>, ds: nat, src: seq<Char>, ss: nat, n: int) {
    && Legal(r)
    && forall p: int :: 0 <= p < 6 * |r| ==>
         Bit(r, p) == (if p < ds then Bit(dest, p)
                       else if p < ds + n then Bit(src, ss + p - ds)
                       else n > 0 && ds % 6 == ss % 6 != 0 && n < 6 - ds % 6 && p < ds - ds % 6 + 6 && Bit(src, ss + p - ds))
  }

  lemma SecondPart(r: seq<Char>, r1: seq<Char>, dest: seq<Char>, ds: nat, src: seq<Char>, ss: nat, n: int)
    requires Legal(r) && |r| == |r1| && (n > 0 ==> ds + n <= 6 * |r|)
    requires forall p: int :: 0 <= p < 6 * |r1| ==> Bit(r1, p) == (p < ds && Bit(dest, p))
    requires AllCopied(r, r1, ds, src, ss, n)
    ensures TwoParts(r, dest, ds, src, ss, n)
  {
    hide Bit;
    forall p: int | 0 <= p < 6 * |r|
      ensures Bit(r, p) == (if p < ds then Bit(dest, p)
                            else if p < ds + n then Bit(src, ss + p - ds)
                            else n > 0 && ds % 6 == ss % 6 != 0 && n < 6 - ds % 6 && p < ds - ds % 6 + 6 && Bit(src, ss + p - ds))
    {
      assert Bit(r, p) == Copied(r1, ds, src, ss, n, p);
    }
  }

  lemma FirstPart(r1: seq<Char>, r0: seq<Char>, dest: seq<Char>, ds: nat, destlen: nat)
    requires |r1| == |r0| && (forall p: int :: !Bit(r0, p)) && IsLast(dest, destlen - 1)
    requires AllCopied(r1, r0, 0, dest, 0, if ds > destlen then destlen else ds)
    ensures forall p: int :: 0 <= p < 6 * |r1| ==> Bit(r1, p) == (p < ds && Bit(dest, p))
  {
    hide Bit;
    forall p: int | 0 <= p < 6 * |r1|
      ensures Bit(r1, p) == (p < ds && Bit(dest, p))
    {
      assert Bit(r1, p) == Copied(r0, 0, dest, 0, if ds > destlen then destlen else ds, p);
    }
  }

  /** A new string with the first part of the destination and the range of the source. */
  method CopyTwoParts(size: nat, dest: seq<Char>, destlen: nat, ds: nat, src: seq<Char>, ss: nat, n: int) returns (result: array<Char>)
    requires Legal(dest) && Legal(src) && IsLast(dest, destlen - 1)
    requires destlen <= 6 * |dest| && (if ds > destlen then destlen else ds) <= 6 * size
    requires n > 0 ==> ds + n <= 6 * size && ss + n <= 6 * |src|
    ensures fresh(result) && result.Length == size && TwoParts(result[..], dest, ds, src, ss, n)
  {
    hide TwoParts, AllCopied, IsLast, Bit;
    result := new Char[size](_ => 0);
    BlankBits(size);
    assert result[..] == seq(size, _ => 0 as Char);
    ghost var r0 := result[..];
    if ds > 0 {
      if ds > destlen {
        CopyRange(result, 0, dest, 0, destlen);
      } else {
        CopyRange(result, 0, dest, 0, ds);
      }
    } else {
      NoneCopied(r0, 0, dest, 0);
    }
    ghost var r1 := result[..];
    FirstPart(r1, r0, dest, ds, destlen);
    CopyRange(result, ds, src, ss, n);
    SecondPart(result[..], r1, dest, ds, src, ss, n);
  }

  lemma NoneCopied(r: seq<Char>, ds: nat, src: seq<Char>, ss: nat)
    ensures AllCopied(r, r, ds, src, ss, 0)
  {
  }

  /** The last set bit lies inside the string. */
  lemma LastInside(s: seq<Char>, pos: int)
    requires IsLast(s, pos)
    ensures pos < 6 * |s|
  {
  }

  /** One more than the number of the last set bit below `n`. */
  ghost function LengthBelow(s: seq<Char>, n: nat): nat {
    if n == 0 then 0 else if Bit(s, n - 1) then n else LengthBelow(s, n - 1)
  }

  ghost function BitLength(s: seq<Char>): nat {
    LengthBelow(s, 6 * |s|)
  }

  lemma {:induction false} LastBelow(s: seq<Char>, n: nat, pos: int)
    requires IsLast(s, pos) && pos < n
    ensures LengthBelow(s, n) == pos + 1
  {
    hide Bit;
    if n > 0 && n - 1 != pos {
      LastBelow(s, n - 1, pos);
    }
  }

  lemma LastIsLength(s: seq<Char>, pos: int)
    requires IsLast(s, pos)
    ensures pos + 1 == BitLength(s) <= 6 * |s|
  {
    LastInside(s, pos);
    LastBelow(s, 6 * |s|, pos);
  }

  /** Without a length everything of the source is copied: no set bit follows. */
  lemma AllOfSource(r: seq<Char>, dest: seq<Char>, ds: nat, src: seq<Char>, ss: nat, n: nat)
    requires TwoParts(r, dest, ds, src, ss, n) && ds + n <= 6 * |r| && forall p: int :: p >= ss + n ==> !Bit(src, p)
    ensures SplicedUpToLeaks(r, dest, ds, src, ss, None)
  {
    EndOfBits(r);
    hide Bit;
    forall p: int | p >= 0
      ensures Bit(r, p) == Spliced(dest, ds, src, ss, None, p)
    {
      if p < 6 * |r| {
      } else {
        assert !Bit(src, ss + p - ds);
      }
    }
  }

  lemma EndOfBits(s: seq<Char>)
    ensures forall p: int :: p < 0 || p >= 6 * |s| ==> !Bit(s, p)
  {
  }

  /** The result with a length, before the remainder of the destination is copied: it is complete if there is none. */
  lemma NoRemainder(r: seq<Char>, dest: seq<Char>, destlen: nat, ds: nat, src: seq<Char>, srclen: nat, ss: nat, n: int, len: nat)
    requires TwoParts(r, dest, ds, src, ss, n) && IsLast(dest, destlen - 1) && IsLast(src, srclen - 1) && len > 0
    requires n == (if ss >= srclen - len then srclen - ss else len) && destlen <= ds + len <= 6 * |r|
    ensures SplicedUpToLeaks(r, dest, ds, src, ss, Some(len))
  {
    EndOfBits(r);
    hide Bit;
    forall p: int | p >= 0
      ensures Bit(r, p) == (Spliced(dest, ds, src, ss, Some(len), p) || Leaks(dest, ds, src, ss, Some(len), p))
    {
      assert p >= ds + len ==> !Bit(dest, p);
      if ds <= p && ss + p - ds >= srclen {
        assert !Bit(src, ss + p - ds);
      }
    }
  }

  /** Copying the remainder of the destination overwrites what has leaked. */
  lemma WithRemainder(r: seq<Char>, r2: seq<Char>, dest: seq<Char>, destlen: nat, ds: nat, src: seq<Char>, srclen: nat, ss: nat, n: int, len: nat)
    requires TwoParts(r2, dest, ds, src, ss, n) && IsLast(dest, destlen - 1) && IsLast(src, srclen - 1) && len > 0
    requires n == (if ss >= srclen - len then srclen - ss else len) && ds + len < destlen <= 6 * |r|
    requires Legal(r) && AllCopied(r, r2, ds + len, dest, ds + len, destlen - (ds + len))
    ensures SplicedUpToLeaks(r, dest, ds, src, ss, Some(len))
  {
    EndOfBits(r);
    hide Bit;
    forall p: int | p >= 0
      ensures Bit(r, p) == (Spliced(dest, ds, src, ss, Some(len), p) || Leaks(dest, ds, src, ss, Some(len), p))
    {
      assert Bit(dest, destlen - 1);
      assert !Leaks(dest, ds, src, ss, Some(len), p);
      assert p >= destlen ==> !Bit(dest, p);
      if ds <= p && ss + p - ds >= srclen {
        assert !Bit(src, ss + p - ds);
      }
      if p < 6 * |r| {
        assert Bit(r, p) == Copied(r2, ds + len, dest, ds + len, destlen - (ds + len), p);
      }
    }
  }

  /** The first error that legal strings and the given arguments lead to. */
  function Fault(srclen: nat, destlen: nat, srcstart: int, deststart: int, copylen: Option<int>): Option<BitsError> {
    var ss := if srcstart < 0 then srcstart + srclen else srcstart;
    var ds := if deststart < 0 then deststart + destlen else deststart;
    if ss < 0 then Some(SourceIndex(srcstart))
    else if ds < 0 then Some(DestIndex(deststart))
    else if copylen.Some? && copylen.value < 0 && ss + copylen.value < 0 then Some(Length(copylen.value))
    else if copylen.None? then
      if ss == 0 && ds == 0 then None else SizeFault(ds, if srclen > ss then srclen - ss else 0, 0)
    else
      var s, n := if copylen.value < 0 then ss + copylen.value else ss, if copylen.value < 0 then -copylen.value else copylen.value;
      if n == 0 || (s == 0 && ds == 0 && n >= destlen && n >= srclen) then None else SizeFault(ds, n, destlen)
  }

  function SizeFault(ds: int, n: int, destlen: nat): Option<BitsError> {
    if PINT_MAX - n < ds then Some(NumericalLimit)
    else
      var resultlen := if destlen > ds + n then destlen else ds + n;
      if resultlen > MAX_BITS then Some(TooBig(resultlen)) else None
  }

  /** The range that is meant: negative starts count from the end, a negative length goes back from the start. */
  function Start(start: int, length: nat): int {
    if start < 0 then start + length else start
  }

  ghost function SourceStart(srcstart: int, srclen: nat, copylen: Option<int>): int {
    Start(srcstart, srclen) + if copylen.Some? && copylen.value < 0 then copylen.value else 0
  }

  ghost function CopyLength(copylen: Option<int>): Option<nat> {
    if copylen.None? then None else Some(if copylen.value < 0 then -copylen.value else copylen.value)
  }

  /** Without a length: the first part of the destination, then all of the source. */
  method CopyAll(src: seq<Char>, srclen: nat, ss: nat, dest: seq<Char>, destlen: nat, ds: nat) returns (r: Result<seq<Char>, BitsError>)
    requires Legal(src) && Legal(dest) && IsLast(src, srclen - 1) && IsLast(dest, destlen - 1)
    requires ss != 0 || ds != 0
    ensures var fault := SizeFault(ds, if srclen > ss then srclen - ss else 0, 0);
            if fault.Some? then r == Err(fault.value) else r.Ok? && SplicedUpToLeaks(r.value, dest, ds, src, ss, None)
  {
    hide TwoParts, IsLast, SplicedUpToLeaks, Bit;
    var n: nat := if srclen > ss then srclen - ss else 0;
    if PINT_MAX - n < ds {
      return Err(NumericalLimit);
    }
    var resultlen := ds + n;
    if resultlen > MAX_BITS {
      return Err(TooBig(resultlen));
    }
    LastInside(src, srclen - 1);
    LastInside(dest, destlen - 1);
    var result := CopyTwoParts((resultlen + 5) / 6, dest, destlen, ds, src, ss, n);
    NoneBehind(src, srclen, ss + n);
    AllOfSource(result[..], dest, ds, src, ss, n);
    return Ok(result[..]);
  }

  lemma NoneBehind(s: seq<Char>, length: nat, from: nat)
    requires IsLast(s, length - 1) && from >= length
    ensures forall p: int :: p >= from ==> !Bit(s, p)
  {
  }

  /** With a length: the first part of the destination, the range of the source, and the remainder of the destination. */
  method CopyLen(src: seq<Char>, srclen: nat, ss: nat, dest: seq<Char>, destlen: nat, ds: nat, len: nat) returns (r: Result<seq<Char>, BitsError>)
    requires Legal(src) && Legal(dest) && IsLast(src, srclen - 1) && IsLast(dest, destlen - 1) && len > 0
    ensures var fault := SizeFault(ds, len, destlen);
            if fault.Some? then r == Err(fault.value) else r.Ok? && SplicedUpToLeaks(r.value, dest, ds, src, ss, Some(len))
  {
    hide TwoParts, IsLast, SplicedUpToLeaks, Bit, AllCopied;
    var n: int := len;
    if ss >= srclen - len {
      n := srclen - ss;
    }
    if PINT_MAX - len < ds {
      return Err(NumericalLimit);
    }
    var resultlen := ds + len;
    if resultlen < destlen {
      resultlen := destlen;
    }
    if resultlen > MAX_BITS {
      return Err(TooBig(resultlen));
    }
    LastInside(src, srclen - 1);
    LastInside(dest, destlen - 1);
    var result := CopyTwoParts((resultlen + 5) / 6, dest, destlen, ds, src, ss, n);
    ghost var r2 := result[..];
    if destlen - (ds + len) > 0 {
      TwoPartsLegal(r2, dest, ds, src, ss, n);
      CopyRange(result, ds + len, dest, ds + len, destlen - (ds + len));
      WithRemainder(result[..], r2, dest, destlen, ds, src, srclen, ss, n, len);
    } else {
      NoRemainder(r2, dest, destlen, ds, src, srclen, ss, n, len);
    }
    return Ok(result[..]);
  }

  lemma TwoPartsLegal(r: seq<Char>, dest: seq<Char>, ds: nat, src: seq<Char>, ss: nat, n: int)
    requires TwoParts(r, dest, ds, src, ss, n)
    ensures Legal(r)
  {
  }

  /** Copying everything to the beginning gives the source, and copying nothing the destination. */
  lemma WholeString(src: seq<Char>, srclen: nat, dest: seq<Char>, destlen: nat, ds: nat, ss: nat, len: nat)
    requires Legal(src) && Legal(dest) && IsLast(src, srclen - 1) && IsLast(dest, destlen - 1)
    ensures SplicedUpToLeaks(src, dest, 0, src, 0, None)
    ensures len >= srclen && len >= destlen ==> SplicedUpToLeaks(src, dest, 0, src, 0, Some(len))
    ensures SplicedUpToLeaks(dest, dest, ds, src, ss, Some(0))
  {
    hide Bit;
  }

  /** Copy a range of bits of the source to the destination. */
  method VCopyBits(src: seq<Char>, dest: seq<Char>, srcstart: int, deststart: int, copylen: Option<int>)
    returns (r: Result<seq<Char>, BitsError>)
    ensures r.Ok? ==> Legal(src) && Legal(dest)
    ensures var fault := Fault(BitLength(src), BitLength(dest), srcstart, deststart, copylen);
            Legal(src) && Legal(dest) ==>
              if fault.Some? then r == Err(fault.value)
              else && SourceStart(srcstart, BitLength(src), copylen) >= 0 && Start(deststart, BitLength(dest)) >= 0
                   && r.Ok? && SplicedUpToLeaks(r.value, dest, Start(deststart, BitLength(dest)), src,
                                                SourceStart(srcstart, BitLength(src), copylen), CopyLength(copylen))
  {
    hide IsLast, SplicedUpToLeaks, Bit, BitLength, Legal, SizeFault;
    var lastSrc := LastBit(src);
    var lastDest := LastBit(dest);
    var srclen, destlen := lastSrc + 1, lastDest + 1;
    if Legal(src) && Legal(dest) {
      LastIsLength(src, lastSrc);
      LastIsLength(dest, lastDest);
      WholeString(src, srclen, dest, destlen, if Start(deststart, destlen) < 0 then 0 else Start(deststart, destlen),
                  if Start(srcstart, srclen) < 0 then 0 else Start(srcstart, srclen),
                  if copylen.None? then 0 else if copylen.value < 0 then -copylen.value else copylen.value);
    }
    var ss, ds := Start(srcstart, srclen), Start(deststart, destlen);
    if ss < 0 {
      return Err(SourceIndex(srcstart));
    }
    if ds < 0 {
      return Err(DestIndex(deststart));
    }
    var len := if copylen.None? then 0 else copylen.value;
    if len < 0 {
      if ss + len < 0 {
        return Err(Length(len));
      }
      ss, len := ss + len, -len;
    }
    var illegal := IllegalChar(src);
    if illegal.Some? {
      return Err(SourceChar(illegal.value));
    }
    illegal := IllegalChar(dest);
    if illegal.Some? {
      return Err(DestChar(illegal.value));
    }
    if copylen.None? {
      if ss == 0 && ds == 0 {
        return Ok(src);
      }
      r := CopyAll(src, srclen, ss, dest, destlen, ds);
    } else if len == 0 {
      return Ok(dest);
    } else if ss == 0 && ds == 0 && len >= destlen && len >= srclen {
      return Ok(src);
    } else {
      r := CopyLen(src, srclen, ss, dest, destlen, ds, len);
    }
  }

  /** Bits leak in this call: copying the second bit of "111" to the second bit of nothing passes all checks, and sets the
      third one too. */
  lemma LeakExample(r: seq<Char>)
    ensures BitLength([7]) == 3 && BitLength([]) == 0 && Fault(3, 0, 1, 1, Some(1)) == None
    ensures Start(1, 0) == SourceStart(1, 3, Some(1)) == CopyLength(Some(1)).value == 1
    ensures Leaks([], 1, [7], 1, Some(1), 2)
    ensures SplicedUpToLeaks(r, [], 1, [7], 1, Some(1)) ==> Bit(r, 2) && !Spliced([], 1, [7], 1, Some(1), 2)
  {
    Table(2);
    assert Bit([7], 2);
    assert IsLast([], -1);
    LastIsLength([], -1);
    SevenEnds();
    LastIsLength([7], 2);
  }

  lemma SevenEnds()
    ensures IsLast([7], 2)
  {
    Table(2);
    forall p: int | p > 2
      ensures !Bit([7], p)
    {
      if p < 6 {
        Table(p % 6);
      }
    }
  }
}
