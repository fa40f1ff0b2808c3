/** Copying a range of bits from one string into another. */
module CopyBits {
  import opened SixBits

  /** Bit `p` of the destination after `len` bits have been copied to `ds` from `ss`. The characters are written as a
      whole: bits behind the range are cleared; but if the range ends in the character where it begins, without
      reaching its end, they keep their value, or take that of the source if the range begins on the same bit there. */
  ghost predicate Copied(d: seq<Char>, ds: nat, src: seq<Char>, ss: nat, len: int, p: nat) {
    if len < 1 || p < ds || p / 6 > (ds + len - 1) / 6 then Bit(d, p)
    else if p < ds + len then Bit(src, ss + p - ds)
    else if ds % 6 != 0 && len < 6 - ds % 6 then Bit(if ds % 6 == ss % 6 then src else d, if ds % 6 == ss % 6 then ss + p - ds else p)
    else false
  }

  ghost predicate AllCopied(d: seq<Char>, d0: seq<Char>, ds: nat, src: seq<Char>, ss: nat, len: int) {
    |d| == |d0| && forall p: nat :: p < 6 * |d| ==> Bit(d, p) == Copied(d0, ds, src, ss, len, p)
  }

  /** The bits of d[from..to] come from the source, and all others are as in `d0`. */
  ghost predicate Progress(d: seq<Char>, d0: seq<Char>, from: nat, to: nat, src: seq<Char>, shift: int) {
    && |d| == |d0| && Legal(d) && from <= to <= 6 * |d|
    && forall p: nat :: p < 6 * |d| ==> Bit(d, p) == if from <= p < to then Bit(src, p + shift) else Bit(d0, p)
  }

  lemma BitUpdate(d: seq<Char>, i: nat, c: Char, p: nat)
    requires i < |d|
    ensures Bit(d[i := c], p) == if p / 6 == i then Has(c, p % 6) else Bit(d, p)
  {
  }

  /** One more character has been filled. */
  lemma FillChar(d: seq<Char>, d0: seq<Char>, from: nat, to: nat, src: seq<Char>, shift: int, c: Char)
    requires Progress(d, d0, from, to, src, shift) && to % 6 == 0 && to / 6 < |d| && c <= ALL
    requires forall k: nat :: k < 6 ==> Has(c, k) == Bit(src, to + k + shift)
    ensures Progress(d[to / 6 := c], d0, from, to + 6, src, shift)
  {
    hide Has, Bit;
    var e := d[to / 6 := c];
    forall p: nat | p < 6 * |e|
      ensures Bit(e, p) == if from <= p < to + 6 then Bit(src, p + shift) else Bit(d0, p)
    {
      BitUpdate(d, to / 6, c, p);
      if p / 6 == to / 6 {
        assert p == to + p % 6;
      }
    }
  }

  /** The last character gets the rest of the bits, and is clear behind them. */
  lemma FillLast(d: seq<Char>, d0: seq<Char>, ds: nat, to: nat, src: seq<Char>, ss: nat, n: nat, c: Char)
    requires Progress(d, d0, ds, to, src, ss - ds) && to % 6 == 0 && to / 6 < |d| && c <= ALL && 0 < n < 6
    requires forall k: nat :: k < 6 ==> Has(c, k) == (k < n && Bit(src, to + k + (ss - ds)))
    requires ds == to || ds % 6 == 0 || to >= ds - ds % 6 + 6
    ensures Legal(d[to / 6 := c]) && AllCopied(d[to / 6 := c], d0, ds, src, ss, to + n - ds)
  {
    hide Has, Bit;
    var e := d[to / 6 := c];
    forall p: nat | p < 6 * |e|
      ensures Bit(e, p) == Copied(d0, ds, src, ss, to + n - ds, p)
    {
      BitUpdate(d, to / 6, c, p);
      if p / 6 == to / 6 {
        assert p == to + p % 6;
      }
    }
  }

  lemma FillDone(d: seq<Char>, d0: seq<Char>, ds: nat, to: nat, src: seq<Char>, ss: nat)
    requires Progress(d, d0, ds, to, src, ss - ds) && to % 6 == 0
    ensures AllCopied(d, d0, ds, src, ss, to - ds)
  {
    hide Bit;
  }

  // ----- both ranges begin on the same bit

  /** Copy the first few bits up to the end of the character. */
  method AlignedHead(dest: array<Char>, ds: nat, src: seq<Char>, ss: nat, len: nat)
    requires Legal(dest[..]) && Legal(src) && ds % 6 == ss % 6 != 0 && len > 0
    requires ds + len <= 6 * dest.Length && ss + len <= 6 * |src|
    modifies dest
    ensures Progress(dest[..], old(dest[..]), ds, ds - ds % 6 + 6, src, ss - ds)
  {
    ghost var d := dest[..];
    var s := ds % 6;
    var storemask := OneBit(s) - 1;
    var getmask := !storemask;
    if len < 6 - s {
      var len2 := 6 - s - len;
      var lenmask := OneBit(len2) - 1;
      lenmask := lenmask << (6 - len2);
      storemask := storemask & !lenmask;
      LengthMaskLost(s, len);
    }
    dest[ds / 6] := (dest[ds / 6] & storemask) | (src[ss / 6] & getmask);
    HeadFilled(d, ds, src, ss);
    assert dest[..] == d[ds / 6 := Mixed(d[ds / 6], src[ss / 6], s)];
  }

  lemma SamePlace(ds: nat, ss: nat, p: nat)
    requires ds % 6 == ss % 6 && p / 6 == ds / 6
    ensures 0 <= p + (ss - ds) && (p + (ss - ds)) / 6 == ss / 6 && (p + (ss - ds)) % 6 == p % 6
    ensures p < ds <==> p % 6 < ds % 6
  {
  }

  lemma HeadFilled(d: seq<Char>, ds: nat, src: seq<Char>, ss: nat)
    requires Legal(d) && Legal(src) && ds % 6 == ss % 6 != 0 && ds / 6 < |d| && ss / 6 < |src|
    ensures Progress(d[ds / 6 := Mixed(d[ds / 6], src[ss / 6], ds % 6)], d, ds, ds - ds % 6 + 6, src, ss - ds)
  {
    hide Has, Bit, Mixed;
    var c := Mixed(d[ds / 6], src[ss / 6], ds % 6);
    var e, last := d[ds / 6 := c], ds - ds % 6 + 6;
    MixedBits(d[ds / 6], src[ss / 6], ds % 6, 0);
    forall p: nat | p < 6 * |e|
      ensures Bit(e, p) == if ds <= p < last then Bit(src, p + (ss - ds)) else Bit(d, p)
    {
      BitUpdate(d, ds / 6, c, p);
      InChar(ds, p);
      if p / 6 == ds / 6 {
        MixedBits(d[ds / 6], src[ss / 6], ds % 6, p % 6);
        SamePlace(ds, ss, p);
        BitAt(d, p);
        BitAt(src, p + (ss - ds));
      }
    }
    assert last == 6 * (ds / 6) + 6;
  }

  lemma InChar(ds: nat, p: nat)
    ensures p / 6 == ds / 6 <==> ds - ds % 6 <= p < ds - ds % 6 + 6
  {
  }

  /** The bits of a whole character. */
  lemma CharBits(src: seq<Char>, i: nat)
    requires i < |src|
    ensures forall k: nat :: k < 6 ==> Has(src[i], k) == Bit(src, 6 * i + k)
  {
  }

  /** Copy whole characters, and then the bits that are left. */
  method AlignedRest(dest: array<Char>, ghost d0: seq<Char>, ghost ds: nat, pDest: nat, src: seq<Char>, ghost ss: nat, pSrc: nat, len: nat)
    requires Legal(src) && Progress(dest[..], d0, ds, 6 * pDest, src, ss - ds) && 6 * pDest + (ss - ds) == 6 * pSrc
    requires 6 * pDest + len <= 6 * dest.Length && 6 * pSrc + len <= 6 * |src| && (ds % 6 == 0 || 6 * pDest >= ds - ds % 6 + 6)
    modifies dest
    ensures Legal(dest[..]) && AllCopied(dest[..], d0, ds, src, ss, 6 * pDest + len - ds)
  {
    hide Progress, AllCopied, Bit, Has;
    var k := 0;
    while k < len / 6
      invariant 0 <= k <= len / 6 && Progress(dest[..], d0, ds, 6 * (pDest + k), src, ss - ds)
    {
      ghost var d := dest[..];
      CharBits(src, pSrc + k);
      assert src[pSrc + k] <= ALL;
      FillChar(d, d0, ds, 6 * (pDest + k), src, ss - ds, src[pSrc + k]);
      dest[pDest + k] := src[pSrc + k];
      assert dest[..] == d[pDest + k := src[pSrc + k]];
      k := k + 1;
    }
    if len > 0 && len % 6 != 0 {
      var mask := OneBit(len % 6) - 1;
      ghost var d := dest[..];
      var c := src[pSrc + k] & mask;
      assert src[pSrc + k] <= ALL;
      forall j: nat | j < 6
        ensures Has(c, j) == (j < len % 6 && Has(src[pSrc + k], j)) && c <= ALL
      {
        LowBits(src[pSrc + k], len % 6, j);
      }
      assert Has(c, 0) ==> c <= ALL;
      CharBits(src, pSrc + k);
      FillLast(d, d0, ds, 6 * (pDest + k), src, ss, len % 6, c);
      dest[pDest + k] := c;
      assert dest[..] == d[pDest + k := c];
    } else {
      FillDone(dest[..], d0, ds, 6 * (pDest + k), src, ss);
      ProgressLegal(dest[..], d0, ds, 6 * (pDest + k), src, ss - ds);
    }
  }

  lemma ProgressLegal(d: seq<Char>, d0: seq<Char>, from: nat, to: nat, src: seq<Char>, shift: int)
    requires Progress(d, d0, from, to, src, shift)
    ensures Legal(d)
  {
  }

  lemma NoProgress(d: seq<Char>, ds: nat, src: seq<Char>, shift: int)
    requires Legal(d) && ds <= 6 * |d|
    ensures Progress(d, d, ds, ds, src, shift)
  {
  }

  /** The range ends in the character where it begins. */
  lemma HeadOnly(d: seq<Char>, d0: seq<Char>, ds: nat, src: seq<Char>, ss: nat, len: nat)
    requires Progress(d, d0, ds, ds - ds % 6 + 6, src, ss - ds) && ds % 6 == ss % 6 != 0 && 0 < len <= 6 - ds % 6
    ensures AllCopied(d, d0, ds, src, ss, len)
  {
    hide Bit;
  }

  method CopyAligned(dest: array<Char>, ds: nat, src: seq<Char>, ss: nat, len: nat)
    requires Legal(dest[..]) && Legal(src) && ds % 6 == ss % 6 && len > 0
    requires ds + len <= 6 * dest.Length && ss + len <= 6 * |src|
    modifies dest
    ensures Legal(dest[..]) && AllCopied(dest[..], old(dest[..]), ds, src, ss, len)
  {
    hide Progress, AllCopied;
    ghost var d := dest[..];
    var pDest, pSrc, left: int := ds / 6, ss / 6, len;
    if ds % 6 != 0 {
      AlignedHead(dest, ds, src, ss, len);
      left := left - (6 - ds % 6);
      pDest := pDest + 1;
      pSrc := pSrc + 1;
      ProgressLegal(dest[..], d, ds, ds - ds % 6 + 6, src, ss - ds);
      if left <= 0 {
        HeadOnly(dest[..], d, ds, src, ss, len);
        return;
      }
    } else {
      NoProgress(d, ds, src, ss - ds);
    }
    AlignedRest(dest, d, ds, pDest, src, ss, pSrc, left);
  }

  // ----- the ranges begin on different bits

  /** Store bits one by one until the character is full. */
  method FillBits(first: Char, s: nat, src: seq<Char>, ss: nat, len: nat) returns (copied: nat, destBits: Char)
    requires first <= ALL && 0 < s < 6 && len > 0 && ss + len <= 6 * |src|
    ensures copied == (if len < 6 - s then len else 6 - s) && Stored(destBits, first, s, s + copied, src, ss)
  {
    hide Stored, Bit, OneBit, Has, Reading;
    var getbit: nat, storebit: nat := ss % 6, s;
    var getmask, storemask := OneBit(getbit), OneBit(storebit);
    var pSrc: nat := ss / 6;
    var srcBits := src[pSrc];
    destBits, copied := first, 0;
    NothingStored(destBits, s, src, ss);
    StartReading(src, ss);
    while copied < len && storebit != 6
      invariant copied <= len && storebit == s + copied <= 6 && storemask == OneBit(storebit)
      invariant Reading(src, ss + copied, getbit, getmask, pSrc, srcBits)
      invariant Stored(destBits, first, s, storebit, src, ss)
    {
      StoreBit(src, ss + copied, getbit, getmask, pSrc, srcBits);
      StoreOne(destBits, first, s, storebit, src, ss);
      destBits := if srcBits & getmask != 0 then destBits | storemask else destBits & !storemask;
      NextMask(storebit);
      getbit, getmask, pSrc, srcBits := NextSourceBit(src, ss + copied, getbit, getmask, pSrc, srcBits);
      storebit, storemask := storebit + 1, storemask << 1;
      copied := copied + 1;
    }
  }

  /** Copy bits up to the end of the character. */
  method UnalignedHead(dest: array<Char>, ds: nat, src: seq<Char>, ss: nat, len: nat) returns (copied: nat)
    requires Legal(dest[..]) && Legal(src) && ds % 6 != 0 && len > 0
    requires ds + len <= 6 * dest.Length && ss + len <= 6 * |src|
    modifies dest
    ensures copied == (if len < 6 - ds % 6 then len else 6 - ds % 6)
    ensures Progress(dest[..], old(dest[..]), ds, ds + copied, src, ss - ds)
  {
    hide Stored, Progress;
    ghost var d := dest[..];
    var pDest := ds / 6;
    var destBits;
    assert d[pDest] <= ALL;
    copied, destBits := FillBits(dest[pDest], ds % 6, src, ss, len);
    dest[pDest] := destBits;
    UnalignedFilled(d, ds, src, ss, copied, destBits);
    assert dest[..] == d[pDest := destBits];
  }

  lemma FirstMask()
    ensures OneBit(0) == 0x01
  {
    Table(0);
  }

  lemma NothingStored(c: Char, from: nat, src: seq<Char>, ss: nat)
    requires c <= ALL
    ensures Stored(c, c, from, from, src, ss)
  {
  }

  /** Bits from..to of the character have been taken from the source. */
  ghost predicate Stored(c: Char, first: Char, from: nat, to: nat, src: seq<Char>, ss: nat) {
    c <= ALL && forall k: nat :: k < 6 ==> Has(c, k) == if from <= k < to then Bit(src, ss + k - from) else Has(first, k)
  }

  lemma StoreOne(c: Char, first: Char, from: nat, to: nat, src: seq<Char>, ss: nat)
    requires Stored(c, first, from, to, src, ss) && from <= to < 6
    ensures Stored(if Bit(src, ss + to - from) then c | OneBit(to) else c & !OneBit(to), first, from, to + 1, src, ss)
  {
    hide Bit, Has, OneBit;
    SetBit(c, to, 0);
    var e := if Bit(src, ss + to - from) then c | OneBit(to) else c & !OneBit(to);
    forall k: nat | k < 6
      ensures Has(e, k) == if from <= k < to + 1 then Bit(src, ss + k - from) else Has(first, k)
    {
      SetBit(c, to, k);
    }
  }

  /** The place of bit `p` in the source, the mask for it and its character. */
  ghost predicate Reading(src: seq<Char>, p: nat, getbit: nat, getmask: Char, pSrc: nat, srcBits: Char) {
    getbit == p % 6 && pSrc == p / 6 && getmask == OneBit(getbit) && srcBits == CharAt(src, pSrc)
  }

  lemma StoreBit(src: seq<Char>, p: nat, getbit: nat, getmask: Char, pSrc: nat, srcBits: Char)
    requires p < 6 * |src| && Reading(src, p, getbit, getmask, pSrc, srcBits)
    ensures srcBits & getmask != 0 <==> Bit(src, p)
  {
  }

  lemma StartReading(src: seq<Char>, p: nat)
    requires p < 6 * |src|
    ensures Reading(src, p, p % 6, OneBit(p % 6), p / 6, src[p / 6])
  {
  }

  /** Go on to the next bit of the source. */
  method NextSourceBit(src: seq<Char>, ghost p: nat, getbit: nat, getmask: Char, pSrc: nat, srcBits: Char)
    returns (getbit': nat, getmask': Char, pSrc': nat, srcBits': Char)
    requires Reading(src, p, getbit, getmask, pSrc, srcBits)
    ensures Reading(src, p + 1, getbit', getmask', pSrc', srcBits')
  {
    hide OneBit;
    FirstMask();
    NextMask(getbit);
    getbit', getmask', pSrc', srcBits' := getbit + 1, getmask << 1, pSrc, srcBits;
    if getbit' == 6 {
      getbit', getmask' := 0, 0x01;
      pSrc' := pSrc + 1;
      srcBits' := CharAt(src, pSrc');
    }
  }

  lemma UnalignedFilled(d: seq<Char>, ds: nat, src: seq<Char>, ss: nat, copied: nat, c: Char)
    requires Legal(d) && ds % 6 != 0 && 0 < copied <= 6 - ds % 6 && ds + copied <= 6 * |d|
    requires Stored(c, d[ds / 6], ds % 6, ds % 6 + copied, src, ss)
    ensures Progress(d[ds / 6 := c], d, ds, ds + copied, src, ss - ds)
  {
    hide Has, Bit;
    var e := d[ds / 6 := c];
    forall p: nat | p < 6 * |e|
      ensures Bit(e, p) == if ds <= p < ds + copied then Bit(src, p + (ss - ds)) else Bit(d, p)
    {
      BitUpdate(d, ds / 6, c, p);
      if p / 6 == ds / 6 {
        BitAt(d, p);
        assert p - ds == p % 6 - ds % 6;
      }
    }
  }

  lemma BitAt(d: seq<Char>, p: nat)
    requires p < 6 * |d|
    ensures Bit(d, p) == Has(d[p / 6], p % 6)
  {
  }

  /** Copy blocks of six bits, each out of two characters, as long as there are six bits. */
  method CopyBlocks(dest: array<Char>, ghost d0: seq<Char>, ghost ds: nat, to: nat, src: seq<Char>, from: nat, len: nat) returns (copied: nat)
    requires Legal(src) && Progress(dest[..], d0, ds, to, src, from - to) && to % 6 == 0 && from % 6 != 0
    requires to + len <= 6 * dest.Length && from + len <= 6 * |src|
    modifies dest
    ensures copied == len - len % 6 && Progress(dest[..], d0, ds, to + copied, src, from - to)
  {
    hide Progress, Bit, Has;
    var s := from % 6;
    var pDest, pSrc := to / 6, from / 6;
    copied := 0;
    while len - copied >= 6
      invariant copied <= len && copied % 6 == 0 && 6 * pDest == to + copied && 6 * pSrc + s == from + copied
      invariant Progress(dest[..], d0, ds, to + copied, src, from - to)
    {
      ghost var d := dest[..];
      var c := Straddling(src[pSrc], src[pSrc + 1], s);
      BlockBits(src, from + copied, c);
      FillChar(d, d0, ds, to + copied, src, from - to, c);
      dest[pDest] := c;
      assert dest[..] == d[pDest := c];
      copied := copied + 6;
      pDest := pDest + 1;
      pSrc := pSrc + 1;
    }
  }

  lemma BlockBits(src: seq<Char>, p: nat, c: Char)
    requires Legal(src) && p % 6 != 0 && p + 6 <= 6 * |src| && c == Straddling(src[p / 6], src[p / 6 + 1], p % 6)
    ensures c <= ALL && forall k: nat :: k < 6 ==> Has(c, k) == Bit(src, p + k)
  {
    hide Has, Straddling;
    StraddlingBits(src[p / 6], src[p / 6 + 1], p % 6, 0);
    forall k: nat | k < 6
      ensures Has(c, k) == Bit(src, p + k)
    {
      StraddlingBits(src[p / 6], src[p / 6 + 1], p % 6, k);
    }
  }

  /** Copy the last bits one by one into a blank character. */
  method UnalignedTail(dest: array<Char>, ghost d0: seq<Char>, ghost ds: nat, to: nat, src: seq<Char>, ghost ss: nat, from: nat, len: nat)
    requires Legal(src) && Progress(dest[..], d0, ds, to, src, ss - ds) && to % 6 == 0 && from - to == ss - ds && 0 < len < 6
    requires to + len <= 6 * dest.Length && from + len <= 6 * |src|
    requires ds == to || ds % 6 == 0 || to >= ds - ds % 6 + 6
    modifies dest
    ensures Legal(dest[..]) && AllCopied(dest[..], d0, ds, src, ss, to + len - ds)
  {
    hide Stored, Bit, Has, Progress, AllCopied;
    ghost var d := dest[..];
    var pDest: nat := to / 6;
    var destBits := TailBits(src, from, len);
    TailStored(destBits, len, src, from);
    FillLast(d, d0, ds, to, src, ss, len, destBits);
    dest[pDest] := destBits;
    assert dest[..] == d[pDest := destBits];
  }

  /** The next `len` bits of the source in a blank character. */
  method TailBits(src: seq<Char>, from: nat, len: nat) returns (destBits: Char)
    requires Legal(src) && 0 < len < 6 && from + len <= 6 * |src|
    ensures Stored(destBits, 0, 0, len, src, from)
  {
    hide Stored, Bit, OneBit, Has, Reading;
    var getbit: nat, storebit: nat := from % 6, 0;
    FirstMask();
    var getmask, storemask := OneBit(getbit), 0x01;
    var pSrc: nat := from / 6;
    var srcBits: Char := src[pSrc];
    destBits := 0;
    NothingStored(0, 0, src, from);
    StartReading(src, from);
    var k := 0;
    while k < len
      invariant k <= len && storebit == k && storemask == OneBit(storebit)
      invariant Reading(src, from + k, getbit, getmask, pSrc, srcBits)
      invariant Stored(destBits, 0, 0, storebit, src, from)
    {
      StoreBit(src, from + k, getbit, getmask, pSrc, srcBits);
      TailNext(destBits, storemask, storebit, src, from);
      if srcBits & getmask != 0 {
        destBits := destBits | storemask;
      }
      getbit, getmask, pSrc, srcBits := NextSourceBit(src, from + k, getbit, getmask, pSrc, srcBits);
      storebit, storemask := storebit + 1, storemask << 1;
      k := k + 1;
    }
  }

  lemma StoreSet(c: Char, to: nat, src: seq<Char>, from: nat)
    requires Stored(c, 0, 0, to, src, from) && to < 6 && Bit(src, from + to)
    ensures Stored(c | OneBit(to), 0, 0, to + 1, src, from)
  {
    hide Stored, Bit, OneBit;
    StoreOne(c, 0, 0, to, src, from);
  }

  lemma TailNext(c: Char, storemask: Char, to: nat, src: seq<Char>, from: nat)
    requires Stored(c, 0, 0, to, src, from) && to < 5 && storemask == OneBit(to)
    ensures Stored(if Bit(src, from + to) then c | storemask else c, 0, 0, to + 1, src, from)
    ensures storemask << 1 == OneBit(to + 1)
  {
    hide Stored, Bit, OneBit;
    NextMask(to);
    if Bit(src, from + to) {
      StoreSet(c, to, src, from);
    } else {
      StillClear(c, to, src, from);
    }
  }

  /** A bit that is not set in the source need not be stored in a blank character. */
  lemma StillClear(c: Char, to: nat, src: seq<Char>, from: nat)
    requires Stored(c, 0, 0, to, src, from) && to < 6 && !Bit(src, from + to)
    ensures Stored(c, 0, 0, to + 1, src, from)
  {
    hide Bit, Has;
    NoBits(to);
  }

  lemma TailStored(c: Char, len: nat, src: seq<Char>, from: nat)
    requires Stored(c, 0, 0, len, src, from)
    ensures c <= ALL && forall k: nat :: k < 6 ==> Has(c, k) == (k < len && Bit(src, from + k))
  {
    hide Bit, Has;
    forall k: nat | k < 6
      ensures !Has(0, k)
    {
      NoBits(k);
    }
  }

  /** With the destination at the beginning of a character, copy the rest. */
  method UnalignedRest(dest: array<Char>, ghost d0: seq<Char>, ghost ds: nat, to: nat, src: seq<Char>, ghost ss: nat, from: nat, len: nat)
    requires Legal(src) && Progress(dest[..], d0, ds, to, src, ss - ds) && to % 6 == 0 && from % 6 != 0 && from - to == ss - ds
    requires to + len <= 6 * dest.Length && from + len <= 6 * |src|
    requires ds == to || ds % 6 == 0 || to >= ds - ds % 6 + 6
    modifies dest
    ensures Legal(dest[..]) && AllCopied(dest[..], d0, ds, src, ss, to + len - ds)
  {
    hide Progress, AllCopied;
    var done := 0;
    if len >= 6 {
      done := CopyBlocks(dest, d0, ds, to, src, from, len);
    }
    if len - done > 0 {
      UnalignedTail(dest, d0, ds, to + done, src, ss, from + done, len - done);
    } else {
      FillDone(dest[..], d0, ds, to + done, src, ss);
      ProgressLegal(dest[..], d0, ds, to + done, src, ss - ds);
    }
  }

  method CopyUnaligned(dest: array<Char>, ds: nat, src: seq<Char>, ss: nat, len: nat)
    requires Legal(dest[..]) && Legal(src) && ds % 6 != ss % 6 && len > 0
    requires ds + len <= 6 * dest.Length && ss + len <= 6 * |src|
    modifies dest
    ensures Legal(dest[..]) && AllCopied(dest[..], old(dest[..]), ds, src, ss, len)
  {
    hide Progress, AllCopied, Legal;
    ghost var d := dest[..];
    var done := 0;
    NoProgress(d, ds, src, ss - ds);
    if ds % 6 != 0 {
      done := UnalignedHead(dest, ds, src, ss, len);
      ProgressLegal(dest[..], d, ds, ds + done, src, ss - ds);
      if done == len {
        HeadKept(dest[..], d, ds, src, ss, len);
        return;
      }
    }
    UnalignedRest(dest, d, ds, ds + done, src, ss, ss + done, len - done);
  }

  /** The range ends in the character where it begins: the other bits there are kept. */
  lemma HeadKept(d: seq<Char>, d0: seq<Char>, ds: nat, src: seq<Char>, ss: nat, len: nat)
    requires Progress(d, d0, ds, ds + len, src, ss - ds) && ds % 6 != ss % 6 && ds % 6 != 0 && 0 < len <= 6 - ds % 6
    ensures AllCopied(d, d0, ds, src, ss, len)
  {
    hide Bit;
  }

  /** Copy `len` bits of the source from `ss` on to the destination from `ds` on. */
  method CopyRange(dest: array<Char>, ds: nat, src: seq<Char>, ss: nat, len: int)
    requires Legal(dest[..]) && Legal(src)
    requires len > 0 ==> ds + len <= 6 * dest.Length && ss + len <= 6 * |src|
    modifies dest
    ensures Legal(dest[..]) && AllCopied(dest[..], old(dest[..]), ds, src, ss, len)
  {
    hide Bit;
    if len < 1 {
      return;
    }
    if ds % 6 == ss % 6 {
      CopyAligned(dest, ds, src, ss, len);
    } else {
      CopyUnaligned(dest, ds, src, ss, len);
    }
  }

  // ----- what that means

  /** The bits of the range are those of the source, and no bit before the range has changed. */
  lemma RangeCopied(d: seq<Char>, d0: seq<Char>, ds: nat, src: seq<Char>, ss: nat, len: int, p: nat)
    requires AllCopied(d, d0, ds, src, ss, len) && p < 6 * |d|
    ensures p < ds ==> Bit(d, p) == Bit(d0, p)
    ensures ds <= p < ds + len ==> Bit(d, p) == Bit(src, ss + p - ds)
  {
    hide Bit;
  }

  /** Behind the range no bit has changed, whatever the strings hold, exactly if the range is empty or ends with a
      character, or lies inside one character and begins on another bit in the source. */
  ghost predicate NothingBehind(ds: nat, ss: nat, len: int) {
    len < 1 || (ds + len) % 6 == 0 || (ds % 6 != 0 && len < 6 - ds % 6 && ds % 6 != ss % 6)
  }

  lemma BehindKept(d: seq<Char>, d0: seq<Char>, ds: nat, src: seq<Char>, ss: nat, len: int, p: nat)
    requires AllCopied(d, d0, ds, src, ss, len) && NothingBehind(ds, ss, len) && ds + len <= p < 6 * |d|
    ensures p >= ds ==> Bit(d, p) == Bit(d0, p)
  {
    hide Bit;
  }

  /** In all other cases there are strings for which a bit behind the range changes. */
  lemma BehindChanged(ds: nat, ss: nat, len: nat) returns (d0: seq<Char>, src: seq<Char>, p: nat)
    requires !NothingBehind(ds, ss, len)
    ensures Legal(d0) && Legal(src) && ds + len <= p < 6 * |d0| && ss + len <= 6 * |src|
    ensures Bit(d0, p) && !Copied(d0, ds, src, ss, len, p)
  {
    d0 := seq(ds + len, _ => ALL);
    src := seq(ss + len, _ => 0);
    p := ds + len;
    AllBits(p % 6);
    if ds % 6 != 0 && len < 6 - ds % 6 && ds % 6 == ss % 6 {
      assert Bit(src, ss + len) == Has(0, (ss + len) % 6);
      NoBits((ss + len) % 6);
    }
  }

  lemma AllBits(k: nat)
    requires k < 6
    ensures Has(ALL, k)
  {
    Table(k);
  }
}
