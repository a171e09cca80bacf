/**
 * The builders of tree.go fill a new node left to right: setHeader fixes the key
 * count, and each nodeAppendKV or nodeAppendRange call fills the next slots,
 * reading the offset the previous call left. This module states that discipline
 * as an invariant (FilledUpTo) and proves what each builder adds to the node's
 * contents: nodeAppendKV one entry, nodeAppendRange a run of another node's
 * entries, copied verbatim.
 */
module NodeBuild {
  import opened GoSemantics
  import opened LittleEndian
  import opened NodeFormat
  import opened NodeAccess
  import opened NodeSetters
  import opened NodeAppend

  /**
   * A buffer that keeps the first m slots of `s` (their pointers, their offsets
   * and the record bytes before offset m) has those slots filled with the same
   * entries.
   */
  lemma {:induction false} PrefixKept(s: seq<byte>, r: seq<byte>, m: nat)
    requires FilledUpTo(s, m) && HasSlots(r) && Count(r) == Count(s) && |r| == |s|
    requires forall j :: 0 <= j <= m ==> Off(r, j) == Off(s, j)
    requires forall j :: 0 <= j < m ==> Ptr(r, j) == Ptr(s, j)
    requires r[KvBase(Count(s))..KvBase(Count(s)) + Off(s, m)] == s[KvBase(Count(s))..KvBase(Count(s)) + Off(s, m)]
    ensures FilledUpTo(r, m) && EntriesUpTo(r, m) == EntriesUpTo(s, m)
  {
    var b, e := KvBase(Count(s)), KvBase(Count(s)) + Off(s, m);
    forall i | 0 <= i < m
      ensures SlotOk(r, i) && EntryAt(r, i) == EntryAt(s, i)
    {
      assert SlotOk(s, i);
      assert Off(s, i + 1) <= Off(s, m);
      SliceOfSlice(r, b, e, Off(s, i), Off(s, i + 1));
      SliceOfSlice(s, b, e, Off(s, i), Off(s, i + 1));
      assert Record(r, i) == Record(s, i);
    }
  }

  /** A sequence whose first k elements are `pre` and whose rest is `mid` is pre + mid. */
  lemma {:induction false} Spliced<T>(got: seq<T>, pre: seq<T>, mid: seq<T>, k: nat)
    requires k <= |got| && got[..k] == pre && got[k..] == mid
    ensures got == pre + mid
  {
    assert got == got[..k] + got[k..];
  }

  /** The entries of the first k slots are a prefix of the entries of the first m. */
  lemma {:induction false} EntriesPrefix(r: seq<byte>, m: nat, k: nat)
    requires FilledUpTo(r, m) && FilledUpTo(r, k) && k <= m
    ensures EntriesUpTo(r, m)[..k] == EntriesUpTo(r, k)
  {
    var big, small := EntriesUpTo(r, m), EntriesUpTo(r, k);
    forall i | 0 <= i < k
      ensures big[i] == small[i]
    {
      assert big[i] == EntryAt(r, i);
    }
    assert big[..k] == small;
  }

  /** Offsets in order up to m, with offset m+1 at or above offset m, are in order up to m+1. */
  lemma {:induction false} OffsExtend(r: seq<byte>, m: nat)
    requires HasSlots(r) && m < Count(r)
    requires forall i, j :: 0 <= i <= j <= m ==> Off(r, i) <= Off(r, j)
    requires Off(r, m) <= Off(r, m + 1)
    ensures forall i, j :: 0 <= i <= j <= m + 1 ==> Off(r, i) <= Off(r, j)
  {
    forall i, j | 0 <= i <= j <= m + 1
      ensures Off(r, i) <= Off(r, j)
    {
      if j == m + 1 && i <= m {
        assert Off(r, i) <= Off(r, m);
      }
    }
  }

  /** A buffer filled up to slot m whose slot m holds a record, ending at a uint16 position, is filled up to m+1. */
  lemma {:induction false} FillExtend(r: seq<byte>, m: nat)
    requires FilledUpTo(r, m) && m < Count(r) && SlotOk(r, m)
    requires KvBase(Count(r)) + Off(r, m + 1) < 0x1_0000
    ensures FilledUpTo(r, m + 1) && EntriesUpTo(r, m + 1) == EntriesUpTo(r, m) + [EntryAt(r, m)]
  {
    OffsExtend(r, m);
    assert FilledUpTo(r, m + 1);
    var big := EntriesUpTo(r, m + 1);
    EntriesPrefix(r, m + 1, m);
    assert big[m..] == [EntryAt(r, m)];
    Spliced(big, EntriesUpTo(r, m), [EntryAt(r, m)], m);
  }

  // ---------------------------------------------------------------------------
  // setHeader

  /**
   * setHeader on a buffer with room for the slot arrays of `nkeys` keys starts
   * an empty fill: no slot filled yet, so the next builder starts at offset 0.
   */
  lemma {:induction false} HeaderStartsFill(s: seq<byte>, btype: u16, nkeys: u16)
    requires KvBase(nkeys) <= |s| && KvBase(nkeys) < 0x1_0000
    ensures var r := Headed(s, btype, nkeys);
      Kind(r) == btype && Count(r) == nkeys && FilledUpTo(r, 0) && EntriesUpTo(r, 0) == []
  {
    HeaderRoundTrip(s, btype, nkeys);
  }

  // ---------------------------------------------------------------------------
  // nodeAppendKV

  /**
   * nodeAppendKV at the first unfilled slot idx fills it with (ptr, key, val):
   * the entries of slots 0 .. idx are the earlier ones followed by the new one.
   */
  lemma {:induction false} AppendKVFills(s: seq<byte>, idx: u16, ptr: u64, key: seq<byte>, val: seq<byte>)
    requires FilledUpTo(s, idx) && KvFits(s, idx, key, val)
    ensures var r := AppendedKV(s, idx, ptr, key, val);
      HasSlots(r) && Count(r) == Count(s) && Kind(r) == Kind(s) &&
      FilledUpTo(r, idx + 1) &&
      EntriesUpTo(r, idx + 1) == EntriesUpTo(s, idx) + [Entry(ptr, key, val)] &&
      Off(r, idx + 1) == Off(s, idx) + 4 + |key| + |val|
  {
    var r := AppendedKV(s, idx, ptr, key, val);
    AppendKVLayout(s, idx, ptr, key, val);
    KvAppended(s, r, idx, ptr, key, val);
  }

  /**
   * A buffer laid out as nodeAppendKV leaves one filled up to slot idx (slot
   * idx holding the new pair, every earlier pointer, offset and record byte
   * kept) is filled up to idx+1 with one more entry.
   */
  lemma {:induction false} KvAppended(s: seq<byte>, r: seq<byte>, idx: u16, ptr: u64, key: seq<byte>, val: seq<byte>)
    requires FilledUpTo(s, idx) && KvFits(s, idx, key, val)
    requires HasSlots(r) && Count(r) == Count(s) && |r| == |s|
    requires Ptr(r, idx) == ptr && Off(r, idx) == Off(s, idx) && Off(r, idx + 1) == Off(s, idx) + 4 + |key| + |val|
    requires RecordAtSlot(r, idx, EncodeRecord(key, val))
    requires forall j :: 0 <= j < Count(s) && j != idx ==> Ptr(r, j) == Ptr(s, j)
    requires forall j :: 0 <= j <= Count(s) && j != idx + 1 ==> Off(r, j) == Off(s, j)
    requires forall x :: KvBase(Count(s)) <= x < |s| && !(KvBase(Count(s)) + Off(s, idx) <= x < KvBase(Count(s)) + Off(s, idx) + 4 + |key| + |val|) ==> r[x] == s[x]
    ensures FilledUpTo(r, idx + 1) && EntriesUpTo(r, idx + 1) == EntriesUpTo(s, idx) + [Entry(ptr, key, val)]
  {
    var b, o := KvBase(Count(s)), Off(s, idx);
    assert r[b..b + o] == s[b..b + o] by {
      forall x | b <= x < b + o
        ensures r[x] == s[x]
      {
      }
    }
    PrefixKept(s, r, idx);
    EncodedSlot(r, idx, ptr, key, val);
    FillExtend(r, idx);
  }

  /** A slot holding pointer `ptr` and, where its offsets say, the encoding of (key, val) holds that entry. */
  lemma {:induction false} EncodedSlot(r: seq<byte>, i: nat, ptr: u64, key: seq<byte>, val: seq<byte>)
    requires |key| < 0x1_0000 && |val| < 0x1_0000
    requires HasSlots(r) && i < Count(r) && Ptr(r, i) == ptr
    requires Off(r, i + 1) == Off(r, i) + 4 + |key| + |val|
    requires RecordAtSlot(r, i, EncodeRecord(key, val))
    ensures SlotOk(r, i) && EntryAt(r, i) == Entry(ptr, key, val)
  {
    EncodeRecordDecodes(key, val);
    assert Record(r, i) == EncodeRecord(key, val);
  }

  // ---------------------------------------------------------------------------
  // nodeAppendRange

  /** After a copy of n > 0 slots, `r` has the header of `s` and the same length. */
  predicate CopiedHeader(s: seq<byte>, r: seq<byte>) {
    |r| == |s| && |s| >= HEADER && HasSlots(r) && Count(r) == Count(s) && Kind(r) == Kind(s)
  }

  /** Every pointer of `r` outside slots dst .. dst+n-1 is as in `s`. */
  predicate PtrsKept(s: seq<byte>, dst: nat, n: nat, r: seq<byte>)
    requires CopiedHeader(s, r)
  {
    forall j :: 0 <= j < Count(s) && !(dst <= j < dst + n) ==> Ptr(r, j) == Ptr(s, j)
  }

  /** Offsets dst+1 .. dst+n of `r` are old's rebased onto offset dst; every other offset is as in `s`. */
  predicate CopiedOffs(s: seq<byte>, t: seq<byte>, dst: u16, src: u16, n: u16, r: seq<byte>)
    requires n > 0 && RangeFits(s, t, dst, src, n) && CopiedHeader(s, r)
  {
    (forall j :: dst < j <= dst + n ==> Off(r, j) == Wrap16(Off(s, dst) + Off(t, src + (j - dst)) - Off(t, src))) &&
    (forall j :: 0 <= j <= Count(s) && !(dst < j <= dst + n) ==> Off(r, j) == Off(s, j))
  }

  /** Every byte of the record area of `r` outside the copied records is as in `s`. */
  predicate KvsKept(s: seq<byte>, t: seq<byte>, dst: u16, src: u16, n: u16, r: seq<byte>)
    requires n > 0 && RangeFits(s, t, dst, src, n) && CopiedHeader(s, r)
  {
    var at := KvBase(Count(s)) + Off(s, dst);
    forall x :: KvBase(Count(s)) <= x < |s| && !(at <= x < at + |KvBlock(t, src, n)|) ==> r[x] == s[x]
  }

  /** Slots dst .. dst+n-1 of `r` hold t's slots src .. src+n-1: the same pointers and the same record bytes. */
  predicate SlotsCopied(r: seq<byte>, t: seq<byte>, dst: nat, src: nat, n: nat) {
    HasSlots(r) && HasSlots(t) && dst + n <= Count(r) && src + n <= Count(t) &&
    forall j :: dst <= j < dst + n ==>
      SlotOk(r, j) && SlotOk(t, src + (j - dst)) &&
      Ptr(r, j) == Ptr(t, src + (j - dst)) && Record(r, j) == Record(t, src + (j - dst))
  }

  /**
   * What nodeAppendRange(new, old, dst, src, n) with n > 0 leaves in `r`, slot
   * by slot: the header kept; slots dst .. dst+n-1 holding old's slots src ..
   * src+n-1; offsets dst+1 .. dst+n rebased from old's; every other pointer,
   * offset and record byte as in `s`.
   */
  predicate RangeCopied(s: seq<byte>, t: seq<byte>, dst: u16, src: u16, n: u16, r: seq<byte>)
    requires n > 0 && RangeFits(s, t, dst, src, n)
  {
    CopiedHeader(s, r) && PtrsKept(s, dst, n, r) && CopiedOffs(s, t, dst, src, n, r) &&
    KvsKept(s, t, dst, src, n, r) && SlotsCopied(r, t, dst, src, n)
  }

  /** Offsets dst .. dst+n of `r` are old's src .. src+n moved from old's offset src onto new's offset dst. */
  predicate OffsRebased(s: seq<byte>, t: seq<byte>, dst: u16, src: u16, n: u16, r: seq<byte>)
    requires n > 0 && RangeFits(s, t, dst, src, n) && CopiedHeader(s, r)
  {
    forall j :: dst <= j <= dst + n ==> Off(r, j) == Off(s, dst) + Off(t, src + (j - dst)) - Off(t, src)
  }

  /**
   * Offset dst+k of the copy is old's offset src+k moved from old's offset
   * src onto new's offset dst (no uint16 wrap-around once old's offsets are in order).
   */
  lemma {:induction false} RangeOffAt(s: seq<byte>, t: seq<byte>, dst: u16, src: u16, n: u16, r: seq<byte>, k: nat)
    requires n > 0 && RangeFits(s, t, dst, src, n) && CopiedHeader(s, r) && CopiedOffs(s, t, dst, src, n, r) && k <= n
    requires Off(t, src) <= Off(t, src + k) <= Off(t, src + n)
    ensures Off(r, dst + k) == Off(s, dst) + Off(t, src + k) - Off(t, src)
  {
    if k > 0 {
      assert src + (dst + k - dst) == src + k;
      assert Off(r, dst + k) == Wrap16(Off(s, dst) + Off(t, src + k) - Off(t, src));
    }
  }

  /** When old's offsets src .. src+n are in order, the copy's offsets are rebased without wrap-around. */
  lemma {:induction false} OffsRebasedInOrder(s: seq<byte>, t: seq<byte>, dst: u16, src: u16, n: u16, r: seq<byte>)
    requires n > 0 && RangeFits(s, t, dst, src, n) && CopiedHeader(s, r) && CopiedOffs(s, t, dst, src, n, r)
    requires WellFormed(t)
    ensures OffsRebased(s, t, dst, src, n, r)
  {
    forall j | dst <= j <= dst + n
      ensures Off(r, j) == Off(s, dst) + Off(t, src + (j - dst)) - Off(t, src)
    {
      assert Off(t, src) <= Off(t, src + (j - dst)) <= Off(t, src + n);
      RangeOffAt(s, t, dst, src, n, r, j - dst);
    }
  }

  /** Two windows holding the same bytes agree on every sub-window. */
  lemma {:induction false} SubWindow(r: seq<byte>, t: seq<byte>, p: nat, q: nat, len: nat, lo: nat, hi: nat)
    requires p + len <= |r| && q + len <= |t| && lo <= hi <= len
    requires r[p..p + len] == t[q..q + len]
    ensures r[p + lo..p + hi] == t[q + lo..q + hi]
  {
    SliceOfSlice(r, p, p + len, lo, hi);
    SliceOfSlice(t, q, q + len, lo, hi);
  }

  /**
   * A slot j of `r` whose offsets are t's offsets i and i+1 moved from `a` onto
   * `base`, and whose record area holds t's record bytes from offset `a` on,
   * holds t's record i.
   */
  lemma {:induction false} CopiedRecord(r: seq<byte>, t: seq<byte>, j: nat, i: nat, base: nat, a: nat, len: nat)
    requires HasSlots(r) && j < Count(r) && SlotOk(t, i)
    requires a <= Off(t, i) && Off(t, i + 1) <= a + len
    requires Off(r, j) == base + Off(t, i) - a && Off(r, j + 1) == base + Off(t, i + 1) - a
    requires KvBase(Count(r)) + base + len <= |r| && KvBase(Count(t)) + a + len <= |t|
    requires r[KvBase(Count(r)) + base..KvBase(Count(r)) + base + len] == t[KvBase(Count(t)) + a..KvBase(Count(t)) + a + len]
    ensures SlotOk(r, j) && Record(r, j) == Record(t, i)
  {
    SubWindow(r, t, KvBase(Count(r)) + base, KvBase(Count(t)) + a, len, Off(t, i) - a, Off(t, i + 1) - a);
    assert Record(r, j) == Record(t, i);
  }

  /**
   * Records dst .. dst+n-1 of `r` are a well-formed t's records src .. src+n-1
   * when r's offsets dst .. dst+n are t's src .. src+n moved from offset `a` =
   * Off(t, src) onto `base`, and r's record area at `base` holds t's `len`
   * record bytes from `a` on.
   */
  lemma {:induction false} RunRecordsCopied(r: seq<byte>, t: seq<byte>, dst: nat, src: nat, n: nat, base: nat, a: nat, len: nat)
    requires HasSlots(r) && dst + n <= Count(r) && WellFormed(t) && src + n <= Count(t)
    requires a == Off(t, src) && a + len == Off(t, src + n)
    requires forall j :: dst <= j <= dst + n ==> Off(r, j) == base + Off(t, src + (j - dst)) - a
    requires KvBase(Count(r)) + base + len <= |r| && KvBase(Count(t)) + a + len <= |t|
    requires r[KvBase(Count(r)) + base..KvBase(Count(r)) + base + len] == t[KvBase(Count(t)) + a..KvBase(Count(t)) + a + len]
    ensures forall j :: dst <= j < dst + n ==>
      SlotOk(r, j) && SlotOk(t, src + (j - dst)) && Record(r, j) == Record(t, src + (j - dst))
  {
    forall j | dst <= j < dst + n
      ensures SlotOk(r, j) && SlotOk(t, src + (j - dst)) && Record(r, j) == Record(t, src + (j - dst))
    {
      var i := src + (j - dst);
      assert SlotOk(t, i);
      assert a <= Off(t, i) && Off(t, i + 1) <= a + len;
      assert Off(r, j + 1) == base + Off(t, i + 1) - a by {
        assert src + (j + 1 - dst) == i + 1;
      }
      CopiedRecord(r, t, j, i, base, a, len);
    }
  }

  /** nodeAppendRange puts old's records src .. src+n-1 at slots dst .. dst+n-1 of `new`, byte for byte. */
  lemma {:induction false} AppendRangeRecords(s: seq<byte>, t: seq<byte>, dst: u16, src: u16, n: u16)
    requires n > 0 && RangeFits(s, t, dst, src, n) && WellFormed(t)
    ensures CopiedHeader(s, AppendedRange(s, t, dst, src, n))
    ensures var r := AppendedRange(s, t, dst, src, n);
      forall j :: dst <= j < dst + n ==>
        SlotOk(r, j) && SlotOk(t, src + (j - dst)) && Record(r, j) == Record(t, src + (j - dst))
  {
    var r := AppendedRange(s, t, dst, src, n);
    AppendRangeHeader(s, t, dst, src, n);
    AppendRangeOffs(s, t, dst, src, n);
    AppendRangeKvBlock(s, t, dst, src, n);
    OffsRebasedInOrder(s, t, dst, src, n, r);
    RebasedRecords(s, t, dst, src, n, r);
  }

  /**
   * A buffer whose offsets dst .. dst+n are old's src .. src+n rebased onto
   * new's offset dst, and whose record area holds old's block of records
   * src .. src+n-1 where offset dst points, holds those records in slots
   * dst .. dst+n-1.
   */
  lemma {:induction false} RebasedRecords(s: seq<byte>, t: seq<byte>, dst: u16, src: u16, n: u16, r: seq<byte>)
    requires n > 0 && RangeFits(s, t, dst, src, n) && WellFormed(t) && CopiedHeader(s, r)
    requires OffsRebased(s, t, dst, src, n, r)
    requires var at := KvBase(Count(s)) + Off(s, dst);
      at + |KvBlock(t, src, n)| <= |r| && r[at..at + |KvBlock(t, src, n)|] == KvBlock(t, src, n)
    ensures forall j :: dst <= j < dst + n ==>
      SlotOk(r, j) && SlotOk(t, src + (j - dst)) && Record(r, j) == Record(t, src + (j - dst))
  {
    var base, a, len := Off(s, dst), Off(t, src), Off(t, src + n) - Off(t, src);
    RunRecordsCopied(r, t, dst, src, n, base, a, len);
  }

  /** nodeAppendRange puts old's slots src .. src+n-1 at slots dst .. dst+n-1 of `new`. */
  lemma {:induction false} AppendRangeSlots(s: seq<byte>, t: seq<byte>, dst: u16, src: u16, n: u16)
    requires n > 0 && RangeFits(s, t, dst, src, n) && WellFormed(t)
    ensures SlotsCopied(AppendedRange(s, t, dst, src, n), t, dst, src, n)
  {
    AppendRangePtrs(s, t, dst, src, n);
    AppendRangeRecords(s, t, dst, src, n);
  }

  /** nodeAppendRange keeps every pointer outside slots dst .. dst+n-1. */
  lemma {:induction false} AppendRangePtrsKept(s: seq<byte>, t: seq<byte>, dst: u16, src: u16, n: u16)
    requires n > 0 && RangeFits(s, t, dst, src, n)
    ensures CopiedHeader(s, AppendedRange(s, t, dst, src, n))
    ensures PtrsKept(s, dst, n, AppendedRange(s, t, dst, src, n))
  {
    var r := AppendedRange(s, t, dst, src, n);
    AppendRangeHeader(s, t, dst, src, n);
    forall j | 0 <= j < Count(s) && !(dst <= j < dst + n)
      ensures Ptr(r, j) == Ptr(s, j)
    {
      AppendRangePtr(s, t, dst, src, n, j);
    }
  }

  /** nodeAppendRange keeps every record byte outside the copied block. */
  lemma {:induction false} AppendRangeKvsKept(s: seq<byte>, t: seq<byte>, dst: u16, src: u16, n: u16)
    requires n > 0 && RangeFits(s, t, dst, src, n) && CopiedHeader(s, AppendedRange(s, t, dst, src, n))
    ensures KvsKept(s, t, dst, src, n, AppendedRange(s, t, dst, src, n))
  {
    var r, at := AppendedRange(s, t, dst, src, n), KvBase(Count(s)) + Off(s, dst);
    forall x | KvBase(Count(s)) <= x < |s| && !(at <= x < at + |KvBlock(t, src, n)|)
      ensures r[x] == s[x]
    {
      AppendRangeKvFrame(s, t, dst, src, n, x);
    }
  }

  /** The buffer nodeAppendRange leaves is copied as RangeCopied describes. */
  lemma {:induction false} AppendRangeCopies(s: seq<byte>, t: seq<byte>, dst: u16, src: u16, n: u16)
    requires n > 0 && RangeFits(s, t, dst, src, n) && WellFormed(t)
    ensures RangeCopied(s, t, dst, src, n, AppendedRange(s, t, dst, src, n))
  {
    AppendRangePtrsKept(s, t, dst, src, n);
    AppendRangeOffs(s, t, dst, src, n);
    AppendRangeKvsKept(s, t, dst, src, n);
    AppendRangeSlots(s, t, dst, src, n);
  }

  /** Two slots with the same pointer and the same record bytes hold the same entry. */
  lemma {:induction false} SameEntry(r: seq<byte>, j: nat, t: seq<byte>, i: nat)
    requires SlotOk(r, j) && SlotOk(t, i)
    requires Ptr(r, j) == Ptr(t, i) && Record(r, j) == Record(t, i)
    ensures EntryAt(r, j) == EntryAt(t, i)
  {
    assert KeyOf(Record(r, j)) == KeyOf(Record(t, i));
    assert ValOf(Record(r, j)) == ValOf(Record(t, i));
  }

  /** Slot base+k holds a record; a run of slots is quantified over k so that no instance names a new slot. */
  predicate SlotOkFrom(s: seq<byte>, base: nat, k: nat) {
    SlotOk(s, base + k)
  }

  /** The entry of slot base+k. */
  function EntryFrom(s: seq<byte>, base: nat, k: nat): Entry
    requires SlotOkFrom(s, base, k)
  {
    EntryAt(s, base + k)
  }

  /** Slots dst .. dst+n-1 of `r` hold the entries of t's slots src .. src+n-1. */
  predicate EntriesCopied(r: seq<byte>, t: seq<byte>, dst: nat, src: nat, n: nat) {
    forall k :: 0 <= k < n ==>
      SlotOkFrom(r, dst, k) && SlotOkFrom(t, src, k) && EntryFrom(r, dst, k) == EntryFrom(t, src, k)
  }

  /** Copied slots hold the entries of the slots they were copied from. */
  lemma {:induction false} CopiedEntries(r: seq<byte>, t: seq<byte>, dst: nat, src: nat, n: nat)
    requires SlotsCopied(r, t, dst, src, n)
    ensures EntriesCopied(r, t, dst, src, n)
  {
    forall k | 0 <= k < n
      ensures SlotOkFrom(r, dst, k) && SlotOkFrom(t, src, k) && EntryFrom(r, dst, k) == EntryFrom(t, src, k)
    {
      CopiedEntryAt(r, t, dst, src, n, k);
    }
  }

  /** Copied slot dst+k holds the entry of slot src+k it was copied from. */
  lemma {:induction false} CopiedEntryAt(r: seq<byte>, t: seq<byte>, dst: nat, src: nat, n: nat, k: nat)
    requires SlotsCopied(r, t, dst, src, n) && k < n
    ensures SlotOk(r, dst + k) && SlotOk(t, src + k) && EntryAt(r, dst + k) == EntryAt(t, src + k)
  {
    var j := dst + k;
    assert src + (j - dst) == src + k;
    SameEntry(r, j, t, src + k);
  }

  /** The copy keeps the slots before dst: their offsets, pointers and record bytes. */
  lemma {:induction false} RangeKeepsPrefix(s: seq<byte>, t: seq<byte>, dst: u16, src: u16, n: u16, r: seq<byte>)
    requires n > 0 && RangeFits(s, t, dst, src, n) && CopiedHeader(s, r) && FilledUpTo(s, dst)
    requires PtrsKept(s, dst, n, r) && CopiedOffs(s, t, dst, src, n, r) && KvsKept(s, t, dst, src, n, r)
    ensures FilledUpTo(r, dst) && EntriesUpTo(r, dst) == EntriesUpTo(s, dst)
  {
    var b, d := KvBase(Count(s)), Off(s, dst);
    assert r[b..b + d] == s[b..b + d] by {
      forall x | b <= x < b + d
        ensures r[x] == s[x]
      {
      }
    }
    PrefixKept(s, r, dst);
  }

  /** The copy, made at the first unfilled slot dst of `s`, leaves slots 0 .. dst+n-1 filled. */
  lemma {:induction false} CopiedFillsSlots(s: seq<byte>, t: seq<byte>, dst: u16, src: u16, n: u16, r: seq<byte>)
    requires n > 0 && RangeFits(s, t, dst, src, n) && RangeCopied(s, t, dst, src, n, r)
    requires FilledUpTo(s, dst) && WellFormed(t)
    ensures FilledUpTo(r, dst) && EntriesUpTo(r, dst) == EntriesUpTo(s, dst)
    ensures FilledUpTo(r, dst + n)
    ensures Off(r, dst + n) == Off(s, dst) + Off(t, src + n) - Off(t, src)
  {
    var d, a := Off(s, dst), Off(t, src);
    RangeKeepsPrefix(s, t, dst, src, n, r);
    OffsRebasedInOrder(s, t, dst, src, n, r);
    forall i, j | 0 <= i <= j <= dst + n
      ensures Off(r, i) <= Off(r, j)
    {
      if j <= dst {
        assert Off(r, i) == Off(s, i) && Off(r, j) == Off(s, j);
        assert Off(s, i) <= Off(s, j);
      } else if i <= dst {
        assert Off(r, i) == Off(s, i) && Off(s, i) <= Off(s, dst);
        assert Off(t, src) <= Off(t, src + (j - dst));
      } else {
        assert Off(t, src + (i - dst)) <= Off(t, src + (j - dst));
      }
    }
    assert Off(r, dst + n) == d + Off(t, src + n) - a by {
      assert src + (dst + n - dst) == src + n;
    }
  }

  /** Slots dst .. dst+n-1 holding t's entries src .. src+n-1 make that run of r's entries t's. */
  lemma {:induction false} EntriesRun(r: seq<byte>, t: seq<byte>, dst: nat, src: nat, n: nat, m: nat)
    requires FilledUpTo(r, m) && dst + n <= m && WellFormed(t) && src + n <= Count(t)
    requires EntriesCopied(r, t, dst, src, n)
    ensures EntriesUpTo(r, m)[dst..dst + n] == Entries(t)[src..src + n]
  {
    var got, want := EntriesUpTo(r, m)[dst..dst + n], Entries(t)[src..src + n];
    forall k | 0 <= k < n
      ensures got[k] == want[k]
    {
      assert EntryFrom(r, dst, k) == EntryFrom(t, src, k);
      assert got[k] == EntryAt(r, dst + k);
    }
    assert got == want;
  }

  /** Slots filled by the copy, after a prefix kept from `s`, hold the prefix's entries and then old's. */
  lemma {:induction false} CopiedFillsEntries(s: seq<byte>, t: seq<byte>, dst: nat, src: nat, n: nat, r: seq<byte>)
    requires FilledUpTo(s, dst) && FilledUpTo(r, dst) && EntriesUpTo(r, dst) == EntriesUpTo(s, dst)
    requires FilledUpTo(r, dst + n) && WellFormed(t) && src + n <= Count(t) && EntriesCopied(r, t, dst, src, n)
    ensures EntriesUpTo(r, dst + n) == EntriesUpTo(s, dst) + Entries(t)[src..src + n]
  {
    var m := dst + n;
    var got, pre, mid := EntriesUpTo(r, m), EntriesUpTo(s, dst), Entries(t)[src..src + n];
    EntriesPrefix(r, m, dst);
    EntriesRun(r, t, dst, src, n, m);
    assert got[dst..] == got[dst..dst + n];
    Spliced(got, pre, mid, dst);
  }

  /** The copy, made at the first unfilled slot dst of `s`, fills slots dst .. dst+n-1 with old's entries. */
  lemma {:induction false} CopiedFills(s: seq<byte>, t: seq<byte>, dst: u16, src: u16, n: u16, r: seq<byte>)
    requires n > 0 && RangeFits(s, t, dst, src, n) && RangeCopied(s, t, dst, src, n, r)
    requires FilledUpTo(s, dst) && WellFormed(t)
    ensures FilledUpTo(r, dst + n)
    ensures EntriesUpTo(r, dst + n) == EntriesUpTo(s, dst) + Entries(t)[src..src + n]
    ensures Off(r, dst + n) == Off(s, dst) + Off(t, src + n) - Off(t, src)
  {
    CopiedFillsSlots(s, t, dst, src, n, r);
    CopiedEntries(r, t, dst, src, n);
    CopiedFillsEntries(s, t, dst, src, n, r);
  }

  /**
   * nodeAppendRange at the first unfilled slot dst fills slots dst .. dst+n-1
   * with old's entries src .. src+n-1, pointers, keys and values unchanged.
   */
  lemma {:induction false} AppendRangeFills(s: seq<byte>, t: seq<byte>, dst: u16, src: u16, n: u16)
    requires FilledUpTo(s, dst) && WellFormed(t) && src as int + n <= Count(t) && RangeFits(s, t, dst, src, n)
    ensures var r := AppendedRange(s, t, dst, src, n);
      HasSlots(r) && Count(r) == Count(s) && Kind(r) == Kind(s) &&
      FilledUpTo(r, dst + n) &&
      EntriesUpTo(r, dst + n) == EntriesUpTo(s, dst) + Entries(t)[src..src + n] &&
      Off(r, dst + n) == Off(s, dst) + Off(t, src + n) - Off(t, src)
  {
    if n == 0 {
      assert Entries(t)[src..src + n] == [];
    } else {
      AppendRangeCopies(s, t, dst, src, n);
      CopiedFills(s, t, dst, src, n, AppendedRange(s, t, dst, src, n));
    }
  }
}
