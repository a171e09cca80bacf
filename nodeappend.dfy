/**
 * The builders of tree.go that fill a node being written: nodeAppendKV stores
 * one pointer and key-value record, nodeAppendRange copies a run of slots from
 * another node. Each is a method on the node's buffer proved to leave exactly
 * the buffer its specification function describes; the lemmas here say what
 * that buffer holds slot by slot.
 */
module NodeAppend {
  import opened GoSemantics
  import opened LittleEndian
  import opened NodeFormat
  import opened NodeAccess
  import opened NodeSetters

  // ---------------------------------------------------------------------------
  // nodeAppendKV

  /**
   * nodeAppendKV(new, idx, ..., key, val) neither panics nor wraps: slot idx
   * exists and the record fits, at a uint16 position, where offset idx says.
   */
  predicate KvFits(s: seq<byte>, idx: u16, key: seq<byte>, val: seq<byte>) {
    HasSlots(s) && idx < Count(s) &&
    KvBase(Count(s)) + Off(s, idx) + 4 + |key| + |val| <= |s| &&
    KvBase(Count(s)) + Off(s, idx) + 4 + |key| + |val| < 0x1_0000
  }

  /** The buffer nodeAppendKV leaves: pointer slot idx, record idx, and offset slot idx+1 stored. */
  function AppendedKV(s: seq<byte>, idx: u16, ptr: u64, key: seq<byte>, val: seq<byte>): (r: seq<byte>)
    requires KvFits(s, idx, key, val)
    ensures |r| == |s|
  {
    var n := Count(s);
    var s1 := Write(s, PtrPos(idx), Le64(ptr));
    var s2 := Write(s1, KvBase(n) + Off(s, idx), EncodeRecord(key, val));
    Write(s2, OffPos(n, idx + 1), Le16(Off(s, idx) + 4 + |key| + |val|))
  }

  /**
   * The four stores at the head of nodeAppendKV's record: the key length, the
   * value length, the key and the value, one after the other from `pos`.
   */
  method PutRecord(node: array<byte>, pos: nat, key: seq<byte>, val: seq<byte>)
    requires |key| < 0x1_0000 && |val| < 0x1_0000 && pos + 4 + |key| + |val| <= node.Length
    modifies node
    ensures node[..] == Write(old(node[..]), pos, EncodeRecord(key, val))
  {
    ghost var s := node[..];
    assert Wrap16(|key|) == |key| && Wrap16(|val|) == |val|;
    PutUint16(node, pos, Wrap16(|key|));
    PutUint16(node, pos + 2, Wrap16(|val|));
    CopyAt(node, pos + 4, key);
    CopyAt(node, pos + 4 + Wrap16(|key|), val);
    WriteConcat(s, pos, Le16(|key|), Le16(|val|));
    WriteConcat(s, pos, Le16(|key|) + Le16(|val|), key);
    WriteConcat(s, pos, Le16(|key|) + Le16(|val|) + key, val);
  }

  /** Under KvFits, setPtr in nodeAppendKV stores at pointer slot idx's position. */
  lemma {:induction false} AppendKVPtrStep(s: seq<byte>, idx: u16)
    requires HasSlots(s) && idx < Count(s) && KvBase(Count(s)) < 0x1_0000
    ensures NKeys(s) == Ok(Count(s)) && Wrap16(HEADER + 8 * idx) == PtrPos(idx)
  {
    HeaderReads(s);
    SlotPositions(s, idx);
  }

  /** After setPtr, kvPos(idx) in nodeAppendKV is where offset idx points. */
  lemma {:induction false} AppendKVPosStep(s: seq<byte>, idx: u16, ptr: u64, key: seq<byte>, val: seq<byte>)
    requires KvFits(s, idx, key, val)
    ensures KvPos(Write(s, PtrPos(idx), Le64(ptr)), idx) == Ok(KvBase(Count(s)) + Off(s, idx))
  {
    WriteKeepsOff(s, PtrPos(idx), Le64(ptr), idx);
    GetOffsetReadsSlot(Write(s, PtrPos(idx), Le64(ptr)), idx);
  }

  /** After the record's stores, getOffset(idx) is still offset idx and offset slot idx+1 is in place. */
  lemma {:induction false} AppendKVOffsetStep(s: seq<byte>, idx: u16, ptr: u64, key: seq<byte>, val: seq<byte>)
    requires KvFits(s, idx, key, val)
    ensures var s2 := Write(Write(s, PtrPos(idx), Le64(ptr)), KvBase(Count(s)) + Off(s, idx), EncodeRecord(key, val));
      GetOffset(s2, idx) == Ok(Off(s, idx)) &&
      OffsetPos(s2, idx + 1) == Ok(OffPos(Count(s), idx + 1))
  {
    var s1 := Write(s, PtrPos(idx), Le64(ptr));
    var s2 := Write(s1, KvBase(Count(s)) + Off(s, idx), EncodeRecord(key, val));
    WriteKeepsOff(s, PtrPos(idx), Le64(ptr), idx);
    WriteKeepsOff(s1, KvBase(Count(s)) + Off(s, idx), EncodeRecord(key, val), idx);
    GetOffsetReadsSlot(s2, idx);
    SlotPositions(s2, idx + 1);
  }

  /** The positions and values nodeAppendKV computes along the way, under KvFits. */
  lemma {:induction false} AppendKVSteps(s: seq<byte>, idx: u16, ptr: u64, key: seq<byte>, val: seq<byte>)
    requires KvFits(s, idx, key, val)
    ensures NKeys(s) == Ok(Count(s)) && Wrap16(HEADER + 8 * idx) == PtrPos(idx)
    ensures var s1 := Write(s, PtrPos(idx), Le64(ptr));
      var pos := KvBase(Count(s)) + Off(s, idx);
      var s2 := Write(s1, pos, EncodeRecord(key, val));
      KvPos(s1, idx) == Ok(pos) &&
      GetOffset(s2, idx) == Ok(Off(s, idx)) &&
      OffsetPos(s2, idx + 1) == Ok(OffPos(Count(s), idx + 1))
  {
    AppendKVPtrStep(s, idx);
    AppendKVPosStep(s, idx, ptr, key, val);
    AppendKVOffsetStep(s, idx, ptr, key, val);
  }

  /** nodeAppendKV: store pointer `ptr` and the pair (key, val) as entry idx, and the offset where entry idx+1 starts. */
  method NodeAppendKV(newNode: array<byte>, idx: u16, ptr: u64, key: seq<byte>, val: seq<byte>)
    requires KvFits(newNode[..], idx, key, val)
    modifies newNode
    ensures newNode[..] == AppendedKV(old(newNode[..]), idx, ptr, key, val)
  {
    ghost var s := newNode[..];
    AppendKVSteps(s, idx, ptr, key, val);
    var ok := SetPtr(newNode, idx, ptr);
    assert ok.Ok?;
    var pos := KvPos(newNode[..], idx).value;
    PutRecord(newNode, pos, key, val);
    var off := GetOffset(newNode[..], idx).value;
    assert Wrap16(|key| + |val|) == |key| + |val|;
    ok := SetOffset(newNode, idx + 1, off + 4 + Wrap16(|key| + |val|));
    assert ok.Ok?;
  }

  /** nodeAppendKV keeps the node's type and key count. */
  lemma {:induction false} AppendKVHeader(s: seq<byte>, idx: u16, ptr: u64, key: seq<byte>, val: seq<byte>)
    requires KvFits(s, idx, key, val)
    ensures var r := AppendedKV(s, idx, ptr, key, val);
      HasSlots(r) && Count(r) == Count(s) && Kind(r) == Kind(s)
  {
    var n := Count(s);
    var s1 := Write(s, PtrPos(idx), Le64(ptr));
    var s2 := Write(s1, KvBase(n) + Off(s, idx), EncodeRecord(key, val));
    WriteKeepsHeader(s, PtrPos(idx), Le64(ptr));
    WriteKeepsHeader(s1, KvBase(n) + Off(s, idx), EncodeRecord(key, val));
    WriteKeepsHeader(s2, OffPos(n, idx + 1), Le16(Off(s, idx) + 4 + |key| + |val|));
  }

  /** After nodeAppendKV pointer idx is `ptr` and every other pointer is unchanged. */
  lemma {:induction false} AppendKVPtr(s: seq<byte>, idx: u16, ptr: u64, key: seq<byte>, val: seq<byte>, j: nat)
    requires KvFits(s, idx, key, val) && j < Count(s)
    ensures HasSlots(AppendedKV(s, idx, ptr, key, val)) && Count(AppendedKV(s, idx, ptr, key, val)) == Count(s)
    ensures Ptr(AppendedKV(s, idx, ptr, key, val), j) == if j == idx then ptr else Ptr(s, j)
  {
    var n := Count(s);
    var s1 := Write(s, PtrPos(idx), Le64(ptr));
    var s2 := Write(s1, KvBase(n) + Off(s, idx), EncodeRecord(key, val));
    if j == idx {
      PtrStored(s, idx, ptr);
    } else {
      WriteKeepsPtr(s, PtrPos(idx), Le64(ptr), j);
    }
    WriteKeepsPtr(s1, KvBase(n) + Off(s, idx), EncodeRecord(key, val), j);
    WriteKeepsPtr(s2, OffPos(n, idx + 1), Le16(Off(s, idx) + 4 + |key| + |val|), j);
  }

  /** After nodeAppendKV offset idx+1 is offset idx plus the record's size, and every other offset is unchanged. */
  lemma {:induction false} AppendKVOff(s: seq<byte>, idx: u16, ptr: u64, key: seq<byte>, val: seq<byte>, j: nat)
    requires KvFits(s, idx, key, val) && j <= Count(s)
    ensures HasSlots(AppendedKV(s, idx, ptr, key, val)) && Count(AppendedKV(s, idx, ptr, key, val)) == Count(s)
    ensures Off(AppendedKV(s, idx, ptr, key, val), j) == if j == idx + 1 then Off(s, idx) + 4 + |key| + |val| else Off(s, j)
  {
    var n := Count(s);
    var size := Off(s, idx) + 4 + |key| + |val|;
    var s1 := Write(s, PtrPos(idx), Le64(ptr));
    var s2 := Write(s1, KvBase(n) + Off(s, idx), EncodeRecord(key, val));
    WriteKeepsOff(s, PtrPos(idx), Le64(ptr), j);
    WriteKeepsOff(s1, KvBase(n) + Off(s, idx), EncodeRecord(key, val), j);
    if j == idx + 1 {
      OffStored(s2, idx + 1, size);
    } else {
      WriteKeepsOff(s2, OffPos(n, idx + 1), Le16(size), j);
    }
  }

  /** After nodeAppendKV record idx is the encoded pair, where offset idx says. */
  lemma {:induction false} AppendKVRecord(s: seq<byte>, idx: u16, ptr: u64, key: seq<byte>, val: seq<byte>)
    requires KvFits(s, idx, key, val)
    ensures RecordAtSlot(AppendedKV(s, idx, ptr, key, val), idx, EncodeRecord(key, val))
  {
    var r := AppendedKV(s, idx, ptr, key, val);
    var pos := KvBase(Count(s)) + Off(s, idx);
    var rec := EncodeRecord(key, val);
    AppendKVHeader(s, idx, ptr, key, val);
    AppendKVOff(s, idx, ptr, key, val, idx);
    EncodeRecordDecodes(key, val);
    var s1 := Write(s, PtrPos(idx), Le64(ptr));
    var s2 := Write(s1, pos, rec);
    forall k | 0 <= k < |rec|
      ensures r[pos + k] == rec[k]
    {
      WriteAt(s2, OffPos(Count(s), idx + 1), Le16(Off(s, idx) + 4 + |key| + |val|), pos + k);
      WriteAt(s1, pos, rec, pos + k);
    }
    assert r[pos..pos + |rec|] == rec;
  }

  /**
   * What nodeAppendKV leaves, slot by slot: pointer idx is `ptr`, record idx
   * holds (key, val), offset idx+1 is offset idx plus the record's size; every
   * other pointer and offset, and every record byte outside the new record,
   * is unchanged.
   */
  lemma {:induction false} AppendKVLayout(s: seq<byte>, idx: u16, ptr: u64, key: seq<byte>, val: seq<byte>)
    requires KvFits(s, idx, key, val)
    ensures var r := AppendedKV(s, idx, ptr, key, val);
      HasSlots(r) && Count(r) == Count(s) && Kind(r) == Kind(s) &&
      Ptr(r, idx) == ptr &&
      Off(r, idx) == Off(s, idx) &&
      Off(r, idx + 1) == Off(s, idx) + 4 + |key| + |val| &&
      RecordAtSlot(r, idx, EncodeRecord(key, val)) &&
      (forall j :: 0 <= j < Count(s) && j != idx ==> Ptr(r, j) == Ptr(s, j)) &&
      (forall j :: 0 <= j <= Count(s) && j != idx + 1 ==> Off(r, j) == Off(s, j)) &&
      (forall x :: KvBase(Count(s)) <= x < |s| && !(KvBase(Count(s)) + Off(s, idx) <= x < KvBase(Count(s)) + Off(s, idx) + 4 + |key| + |val|) ==> r[x] == s[x])
  {
    var r := AppendedKV(s, idx, ptr, key, val);
    AppendKVHeader(s, idx, ptr, key, val);
    AppendKVPtr(s, idx, ptr, key, val, idx);
    AppendKVOff(s, idx, ptr, key, val, idx);
    AppendKVOff(s, idx, ptr, key, val, idx + 1);
    AppendKVRecord(s, idx, ptr, key, val);
    forall j | 0 <= j < Count(s) && j != idx
      ensures Ptr(r, j) == Ptr(s, j)
    {
      AppendKVPtr(s, idx, ptr, key, val, j);
    }
    forall j | 0 <= j <= Count(s) && j != idx + 1
      ensures Off(r, j) == Off(s, j)
    {
      AppendKVOff(s, idx, ptr, key, val, j);
    }
    forall x | KvBase(Count(s)) <= x < |s| && !(KvBase(Count(s)) + Off(s, idx) <= x < KvBase(Count(s)) + Off(s, idx) + 4 + |key| + |val|)
      ensures r[x] == s[x]
    {
      AppendKVFrame(s, idx, ptr, key, val, x);
    }
  }

  /** After nodeAppendKV, getPtr, getKey and getVal of entry idx read back `ptr`, `key` and `val`. */
  lemma {:induction false} AppendKVReadsEntry(s: seq<byte>, idx: u16, ptr: u64, key: seq<byte>, val: seq<byte>)
    requires KvFits(s, idx, key, val)
    ensures var r := AppendedKV(s, idx, ptr, key, val);
      GetPtr(r, idx) == Ok(ptr) && GetKey(r, idx) == Ok(key) && GetVal(r, idx) == Ok(val)
  {
    var r := AppendedKV(s, idx, ptr, key, val);
    AppendKVHeader(s, idx, ptr, key, val);
    AppendKVPtr(s, idx, ptr, key, val, idx);
    AppendKVRecord(s, idx, ptr, key, val);
    EncodeRecordDecodes(key, val);
    GetPtrReadsSlot(r, idx);
    GetKeyReadsRecord(r, idx, EncodeRecord(key, val));
    GetValReadsRecord(r, idx, EncodeRecord(key, val));
  }

  /**
   * After nodeAppendKV kvPos(idx) is unchanged and getOffset(idx+1) is
   * getOffset(idx) + 4 + |key| + |val|: the next record starts right after this one.
   */
  lemma {:induction false} AppendKVReadsOffset(s: seq<byte>, idx: u16, ptr: u64, key: seq<byte>, val: seq<byte>)
    requires KvFits(s, idx, key, val)
    ensures var r := AppendedKV(s, idx, ptr, key, val);
      KvPos(r, idx) == KvPos(s, idx) &&
      GetOffset(s, idx).Ok? &&
      GetOffset(r, idx + 1) == Ok(GetOffset(s, idx).value + 4 + |key| + |val|)
  {
    var r := AppendedKV(s, idx, ptr, key, val);
    AppendKVHeader(s, idx, ptr, key, val);
    AppendKVOff(s, idx, ptr, key, val, idx);
    AppendKVOff(s, idx, ptr, key, val, idx + 1);
    GetOffsetReadsSlot(s, idx);
    GetOffsetReadsSlot(r, idx);
    GetOffsetReadsSlot(r, idx + 1);
  }

  /** nodeAppendKV changes no byte outside pointer slot idx, offset slot idx+1 and the new record. */
  lemma {:induction false} AppendKVFrame(s: seq<byte>, idx: u16, ptr: u64, key: seq<byte>, val: seq<byte>, x: nat)
    requires KvFits(s, idx, key, val) && x < |s|
    requires !(PtrPos(idx) <= x < PtrPos(idx) + 8)
    requires !(OffPos(Count(s), idx + 1) <= x < OffPos(Count(s), idx + 1) + 2)
    requires !(KvBase(Count(s)) + Off(s, idx) <= x < KvBase(Count(s)) + Off(s, idx) + 4 + |key| + |val|)
    ensures AppendedKV(s, idx, ptr, key, val)[x] == s[x]
  {
    var n := Count(s);
    var s1 := Write(s, PtrPos(idx), Le64(ptr));
    var s2 := Write(s1, KvBase(n) + Off(s, idx), EncodeRecord(key, val));
    WriteAt(s, PtrPos(idx), Le64(ptr), x);
    WriteAt(s1, KvBase(n) + Off(s, idx), EncodeRecord(key, val), x);
    WriteAt(s2, OffPos(n, idx + 1), Le16(Off(s, idx) + 4 + |key| + |val|), x);
  }

  // ---------------------------------------------------------------------------
  // nodeAppendRange

  /**
   * nodeAppendRange(new, old, dst, src, n) neither panics nor wraps: nothing is
   * needed when n is 0; otherwise slots dst .. dst+n-1 exist in `new`, slots
   * src .. src+n-1 in `old`, old's records src .. src+n-1 span a non-negative
   * length that lies inside `old`, and that length fits in `new` where its
   * offset dst says, all at uint16 positions.
   */
  predicate RangeFits(s: seq<byte>, t: seq<byte>, dst: u16, src: u16, n: u16) {
    n == 0 ||
    (HasSlots(s) && HasSlots(t) &&
     dst as int + n <= Count(s) && src as int + n <= Count(t) &&
     Off(t, src) <= Off(t, src as int + n) &&
     KvBase(Count(t)) + Off(t, src as int + n) <= |t| &&
     KvBase(Count(t)) + Off(t, src as int + n) < 0x1_0000 &&
     KvBase(Count(s)) + Off(s, dst) + (Off(t, src as int + n) - Off(t, src)) <= |s| &&
     KvBase(Count(s)) + Off(s, dst) + (Off(t, src as int + n) - Off(t, src)) < 0x1_0000)
  }

  /**
   * The bytes nodeAppendRange stores in offset slots dst+1 .. dst+k: old's
   * offsets src+1 .. src+k, moved from old's base Off(t, src) to `base`, in
   * uint16 arithmetic.
   */
  function Rebased(t: seq<byte>, src: nat, k: nat, base: u16): (bs: seq<byte>)
    requires HasSlots(t) && src + k <= Count(t)
    ensures |bs| == 2 * k
  {
    if k == 0 then []
    else Rebased(t, src, k - 1, base) + Le16(Wrap16(base + Off(t, src + k) - Off(t, src)))
  }

  /** Entry i-1 of Rebased is the rebased offset src+i. */
  lemma {:induction false} RebasedAt(t: seq<byte>, src: nat, k: nat, base: u16, i: nat)
    requires HasSlots(t) && src + k <= Count(t) && 1 <= i <= k
    ensures U16At(Rebased(t, src, k, base), 2 * (i - 1)) == Wrap16(base + Off(t, src + i) - Off(t, src))
  {
    if i < k {
      RebasedAt(t, src, k - 1, base, i);
    }
  }

  /** The pointer slots nodeAppendRange copies: old's slots src .. src+n-1, as bytes. */
  function PtrBlock(t: seq<byte>, src: nat, n: nat): (bs: seq<byte>)
    requires HasSlots(t) && src + n <= Count(t)
    ensures |bs| == 8 * n
  {
    t[PtrPos(src)..PtrPos(src + n)]
  }

  /** The record bytes nodeAppendRange copies: old's records src .. src+n-1. */
  function KvBlock(t: seq<byte>, src: nat, n: nat): (bs: seq<byte>)
    requires HasSlots(t) && src + n <= Count(t)
    requires Off(t, src) <= Off(t, src + n) && KvBase(Count(t)) + Off(t, src + n) <= |t|
    ensures |bs| == Off(t, src + n) - Off(t, src)
  {
    t[KvBase(Count(t)) + Off(t, src)..KvBase(Count(t)) + Off(t, src + n)]
  }

  /** The buffer after i rounds of nodeAppendRange's pointer loop. */
  function PtrsCopied(s: seq<byte>, t: seq<byte>, dst: u16, src: u16, n: u16, i: nat): (r: seq<byte>)
    requires n > 0 && RangeFits(s, t, dst, src, n) && i <= n
    ensures |r| == |s|
  {
    Write(s, PtrPos(dst), PtrBlock(t, src, i))
  }

  /** The buffer after nodeAppendRange's pointer loop and i rounds of its offset loop. */
  function OffsetsCopied(s: seq<byte>, t: seq<byte>, dst: u16, src: u16, n: u16, i: nat): (r: seq<byte>)
    requires n > 0 && RangeFits(s, t, dst, src, n) && i <= n
    ensures |r| == |s|
  {
    Write(PtrsCopied(s, t, dst, src, n, n), OffPos(Count(s), dst + 1), Rebased(t, src, i, Off(s, dst)))
  }

  /**
   * The buffer nodeAppendRange leaves: old's pointers src .. src+n-1 in slots
   * dst .. dst+n-1, old's offsets src+1 .. src+n rebased onto offset dst in
   * slots dst+1 .. dst+n, and old's records copied to where offset dst points.
   */
  function AppendedRange(s: seq<byte>, t: seq<byte>, dst: u16, src: u16, n: u16): (r: seq<byte>)
    requires RangeFits(s, t, dst, src, n)
    ensures |r| == |s|
  {
    if n == 0 then s
    else Write(OffsetsCopied(s, t, dst, src, n, n), KvBase(Count(s)) + Off(s, dst), KvBlock(t, src, n))
  }

  /**
   * One round of the pointer loop, where it stores: setPtr(dst+i) of `new`
   * finds pointer slot dst+i, which lies inside the node.
   */
  lemma {:induction false} PtrSlotOpen(s: seq<byte>, t: seq<byte>, dst: u16, src: u16, n: u16, i: u16)
    requires n > 0 && RangeFits(s, t, dst, src, n) && i < n
    ensures var cur := PtrsCopied(s, t, dst, src, n, i);
      NKeys(cur) == Ok(Count(s)) && dst + i < Count(s) &&
      Wrap16(HEADER + 8 * (dst + i)) == PtrPos(dst + i) && PtrPos(dst + i) + 8 <= |cur|
  {
    var pp, a := PtrPos(dst), PtrBlock(t, src, i);
    var cur := Write(s, pp, a);
    assert PtrsCopied(s, t, dst, src, n, i) == cur;
    WriteKeepsHeader(s, pp, a);
    HeaderReads(cur);
  }

  /** One round of the pointer loop, what it reads: getPtr(src+i) of `old` succeeds. */
  lemma {:induction false} PtrCopySource(s: seq<byte>, t: seq<byte>, dst: u16, src: u16, n: u16, i: u16)
    requires n > 0 && RangeFits(s, t, dst, src, n) && i < n
    ensures GetPtr(t, src + i) == Ok(Ptr(t, src + i))
  {
    GetPtrReadsSlot(t, src + i);
  }

  /** The first i+1 pointer slots are the first i followed by slot i. */
  lemma {:induction false} PtrBlockExtend(t: seq<byte>, src: nat, i: nat)
    requires HasSlots(t) && src + i < Count(t)
    ensures PtrBlock(t, src, i + 1) == PtrBlock(t, src, i) + t[PtrPos(src + i)..PtrPos(src + i) + 8]
  {
    var lo, mid, hi := PtrPos(src), PtrPos(src + i), PtrPos(src + i) + 8;
    assert PtrPos(src + (i + 1)) == hi;
    assert t[lo..hi] == t[lo..mid] + t[mid..hi];
  }

  /** The eight bytes of pointer slot j re-encode the pointer they hold. */
  lemma {:induction false} PtrSlotBytes(t: seq<byte>, j: nat)
    requires HasSlots(t) && j < Count(t)
    ensures Le64(Ptr(t, j)) == t[PtrPos(j)..PtrPos(j) + 8]
  {
    LeBytesOfLeValue(t[PtrPos(j)..PtrPos(j) + 8]);
  }

  /**
   * One round of the pointer loop, what it stores: old's pointer src+i at
   * pointer slot dst+i, which extends the copied block by one slot.
   */
  lemma {:induction false} PtrCopyStep(s: seq<byte>, t: seq<byte>, dst: u16, src: u16, n: u16, i: u16)
    requires n > 0 && RangeFits(s, t, dst, src, n) && i < n
    ensures PtrPos(dst + i) + 8 <= |s|
    ensures Write(PtrsCopied(s, t, dst, src, n, i), PtrPos(dst + i), Le64(Ptr(t, src + i))) == PtrsCopied(s, t, dst, src, n, i + 1)
  {
    var pp, a, b := PtrPos(dst), PtrBlock(t, src, i), Le64(Ptr(t, src + i));
    PtrBlockExtend(t, src, i);
    PtrSlotBytes(t, src + i);
    assert PtrsCopied(s, t, dst, src, n, i) == Write(s, pp, a);
    assert PtrsCopied(s, t, dst, src, n, i + 1) == Write(s, pp, a + b);
    WriteConcat(s, pp, a, b);
    assert PtrPos(dst + i) == pp + |a|;
  }

  /** One round of the pointer loop: setPtr(new, dst+i, getPtr(old, src+i)). */
  method CopyPtr(newNode: array<byte>, oldNode: array<byte>, dstNew: u16, srcOld: u16, n: u16, i: u16, ghost s: seq<byte>)
    requires newNode != oldNode
    requires n > 0 && RangeFits(s, oldNode[..], dstNew, srcOld, n) && i < n
    requires newNode[..] == PtrsCopied(s, oldNode[..], dstNew, srcOld, n, i)
    modifies newNode
    ensures newNode[..] == PtrsCopied(s, oldNode[..], dstNew, srcOld, n, i + 1)
  {
    PtrSlotOpen(s, oldNode[..], dstNew, srcOld, n, i);
    PtrCopySource(s, oldNode[..], dstNew, srcOld, n, i);
    PtrCopyStep(s, oldNode[..], dstNew, srcOld, n, i);
    var p := GetPtr(oldNode[..], srcOld + i).value;
    var ok := SetPtr(newNode, dstNew + i, p);
    assert ok.Ok?;
  }

  /** nodeAppendRange's first loop: old's pointers src .. src+n-1 into new's slots dst .. dst+n-1. */
  method CopyPtrs(newNode: array<byte>, oldNode: array<byte>, dstNew: u16, srcOld: u16, n: u16)
    requires newNode != oldNode
    requires n > 0 && RangeFits(newNode[..], oldNode[..], dstNew, srcOld, n)
    modifies newNode
    ensures newNode[..] == PtrsCopied(old(newNode[..]), oldNode[..], dstNew, srcOld, n, n)
  {
    ghost var s := newNode[..];
    var i: u16 := 0;
    while i < n
      invariant i <= n
      invariant newNode[..] == PtrsCopied(s, oldNode[..], dstNew, srcOld, n, i)
    {
      CopyPtr(newNode, oldNode, dstNew, srcOld, n, i, s);
      i := i + 1;
    }
  }

  /**
   * Before the offset loop: offset dst of `new` and offset src of `old` read as
   * the layout says, and no offset has been rebased yet.
   */
  lemma {:induction false} OffsetsStart(s: seq<byte>, t: seq<byte>, dst: u16, src: u16, n: u16)
    requires n > 0 && RangeFits(s, t, dst, src, n)
    ensures GetOffset(PtrsCopied(s, t, dst, src, n, n), dst) == Ok(Off(s, dst)) && GetOffset(t, src) == Ok(Off(t, src))
    ensures OffsetsCopied(s, t, dst, src, n, 0) == PtrsCopied(s, t, dst, src, n, n)
  {
    var s1 := PtrsCopied(s, t, dst, src, n, n);
    WriteKeepsOff(s, PtrPos(dst), PtrBlock(t, src, n), dst);
    GetOffsetReadsSlot(s1, dst);
    GetOffsetReadsSlot(t, src);
  }

  /**
   * One round of the offset loop, where it stores: setOffset(dst+i) of `new`
   * finds offset slot dst+i, which lies inside the node.
   */
  lemma {:induction false} OffSlotOpen(s: seq<byte>, t: seq<byte>, dst: u16, src: u16, n: u16, i: u16)
    requires n > 0 && RangeFits(s, t, dst, src, n) && 1 <= i <= n
    ensures var cur := OffsetsCopied(s, t, dst, src, n, i - 1);
      OffsetPos(cur, dst + i) == Ok(OffPos(Count(s), dst + i)) && OffPos(Count(s), dst + i) + 2 <= |cur|
  {
    var p := PtrsCopied(s, t, dst, src, n, n);
    var po, a := OffPos(Count(s), dst + 1), Rebased(t, src, i - 1, Off(s, dst));
    var cur := Write(p, po, a);
    assert OffsetsCopied(s, t, dst, src, n, i - 1) == cur;
    PtrsCopiedOff(s, t, dst, src, n, 0);
    WriteKeepsHeader(p, po, a);
    SlotPositions(cur, dst + i);
  }

  /**
   * One round of the offset loop, what it stores: old's offset src+i rebased
   * onto new's offset dst, which extends the rebased block by one slot.
   */
  lemma {:induction false} OffCopySource(s: seq<byte>, t: seq<byte>, dst: u16, src: u16, n: u16, i: u16)
    requires n > 0 && RangeFits(s, t, dst, src, n) && 1 <= i <= n
    ensures GetOffset(t, src + i) == Ok(Off(t, src + i))
  {
    GetOffsetReadsSlot(t, src + i);
  }

  lemma {:induction false} OffCopyStep(s: seq<byte>, t: seq<byte>, dst: u16, src: u16, n: u16, i: u16)
    requires n > 0 && RangeFits(s, t, dst, src, n) && 1 <= i <= n
    ensures var cur := OffsetsCopied(s, t, dst, src, n, i - 1);
      OffPos(Count(s), dst + i) + 2 <= |cur| &&
      Write(cur, OffPos(Count(s), dst + i), Le16(Wrap16(Off(s, dst) + Off(t, src + i) - Off(t, src))))
        == OffsetsCopied(s, t, dst, src, n, i)
  {
    var p := PtrsCopied(s, t, dst, src, n, n);
    var po, base := OffPos(Count(s), dst + 1), Off(s, dst);
    var a := Rebased(t, src, i - 1, base);
    var b := Le16(Wrap16(base + Off(t, src + i) - Off(t, src)));
    assert OffsetsCopied(s, t, dst, src, n, i - 1) == Write(p, po, a);
    assert OffsetsCopied(s, t, dst, src, n, i) == Write(p, po, a + b);
    WriteConcat(p, po, a, b);
    assert OffPos(Count(s), dst + i) == po + |a|;
  }

  /** One round of nodeAppendRange's second loop: offset dst+i of `new` becomes old's offset src+i rebased from srcBegin onto dstBegin. */
  method CopyOffset(newNode: array<byte>, oldNode: array<byte>, dstNew: u16, srcOld: u16, n: u16, i: u16,
                    dstBegin: u16, srcBegin: u16, ghost s: seq<byte>)
    requires newNode != oldNode
    requires n > 0 && RangeFits(s, oldNode[..], dstNew, srcOld, n) && 1 <= i <= n
    requires dstBegin == Off(s, dstNew) && srcBegin == Off(oldNode[..], srcOld)
    requires newNode[..] == OffsetsCopied(s, oldNode[..], dstNew, srcOld, n, i - 1)
    modifies newNode
    ensures newNode[..] == OffsetsCopied(s, oldNode[..], dstNew, srcOld, n, i)
  {
    OffSlotOpen(s, oldNode[..], dstNew, srcOld, n, i);
    OffCopySource(s, oldNode[..], dstNew, srcOld, n, i);
    OffCopyStep(s, oldNode[..], dstNew, srcOld, n, i);
    var offset := Wrap16(dstBegin as int + GetOffset(oldNode[..], srcOld + i).value - srcBegin);
    var ok := SetOffset(newNode, dstNew + i, offset);
    assert ok.Ok?;
  }

  /** nodeAppendRange's second loop: old's offsets src+1 .. src+n, rebased onto new's offset dst, into new's slots dst+1 .. dst+n. */
  method CopyOffsets(newNode: array<byte>, oldNode: array<byte>, dstNew: u16, srcOld: u16, n: u16, ghost s: seq<byte>)
    requires newNode != oldNode
    requires n > 0 && RangeFits(s, oldNode[..], dstNew, srcOld, n)
    requires newNode[..] == PtrsCopied(s, oldNode[..], dstNew, srcOld, n, n)
    modifies newNode
    ensures newNode[..] == OffsetsCopied(s, oldNode[..], dstNew, srcOld, n, n)
  {
    ghost var t := oldNode[..];
    OffsetsStart(s, t, dstNew, srcOld, n);
    var dstBegin := GetOffset(newNode[..], dstNew).value;
    var srcBegin := GetOffset(oldNode[..], srcOld).value;
    var i: u16 := 1;
    while i <= n
      invariant 1 <= i <= n + 1 && oldNode[..] == t
      invariant newNode[..] == OffsetsCopied(s, t, dstNew, srcOld, n, i - 1)
    {
      CopyOffset(newNode, oldNode, dstNew, srcOld, n, i, dstBegin, srcBegin, s);
      i := i + 1;
    }
  }

  /** kvPos gives the bounds of the block nodeAppendRange copies out of `old`. */
  lemma {:induction false} KvCopySource(t: seq<byte>, src: u16, n: u16)
    requires HasSlots(t) && src as int + n <= Count(t)
    requires KvBase(Count(t)) + Off(t, src as int + n) < 0x1_0000 && Off(t, src) <= Off(t, src as int + n)
    ensures KvPos(t, src) == Ok(KvBase(Count(t)) + Off(t, src))
    ensures KvPos(t, src + n) == Ok(KvBase(Count(t)) + Off(t, src + n))
  {
    GetOffsetReadsSlot(t, src);
    GetOffsetReadsSlot(t, src + n);
  }

  lemma {:induction false} AppendedRangeIs(s: seq<byte>, t: seq<byte>, dst: u16, src: u16, n: u16)
    requires n > 0 && RangeFits(s, t, dst, src, n)
    ensures AppendedRange(s, t, dst, src, n) == Write(OffsetsCopied(s, t, dst, src, n, n), KvBase(Count(s)) + Off(s, dst), KvBlock(t, src, n))
  {
  }

  /** After the offset loop kvPos(dst) of `new` is where its offset dst points. */
  lemma {:induction false} KvCopyTarget(s: seq<byte>, t: seq<byte>, dst: u16, src: u16, n: u16)
    requires n > 0 && RangeFits(s, t, dst, src, n)
    ensures KvPos(OffsetsCopied(s, t, dst, src, n, n), dst) == Ok(KvBase(Count(s)) + Off(s, dst))
  {
    OffsetsCopiedOff(s, t, dst, src, n, dst);
    GetOffsetReadsSlot(OffsetsCopied(s, t, dst, src, n, n), dst);
  }

  /** kvPos(src) and kvPos(src+n) of `old` bound its records src .. src+n-1, and kvPos(dst) of `new` has room for them. */
  lemma {:induction false} KvCopyBounds(s: seq<byte>, t: seq<byte>, dst: u16, src: u16, n: u16, cur: seq<byte>, at: nat, begin: nat, end: nat)
    requires n > 0 && RangeFits(s, t, dst, src, n) && cur == OffsetsCopied(s, t, dst, src, n, n)
    requires KvPos(t, src) == Ok(begin) && KvPos(t, src + n) == Ok(end) && KvPos(cur, dst) == Ok(at)
    ensures begin <= end <= |t| && at + (end - begin) <= |cur|
    ensures at == KvBase(Count(s)) + Off(s, dst) && t[begin..end] == KvBlock(t, src, n)
  {
    KvCopySource(t, src, n);
    KvCopyTarget(s, t, dst, src, n);
  }

  /** Copying old's records to where offset dst of `new` points completes the buffer AppendedRange describes. */
  lemma {:induction false} KvCopyStep(s: seq<byte>, t: seq<byte>, dst: u16, src: u16, n: u16, cur: seq<byte>, at: nat, kvs: seq<byte>)
    requires n > 0 && RangeFits(s, t, dst, src, n) && cur == OffsetsCopied(s, t, dst, src, n, n)
    requires at == KvBase(Count(s)) + Off(s, dst) && kvs == KvBlock(t, src, n)
    ensures at + |kvs| <= |cur| && Write(cur, at, kvs) == AppendedRange(s, t, dst, src, n)
  {
    AppendedRangeIs(s, t, dst, src, n);
  }

  /**
   * nodeAppendRange: copy n slots of `old`, starting at srcOld, into `new` at
   * dstNew: pointers, then offsets rebased onto new's offset dstNew, then the
   * record bytes in one block. `old` is only read.
   */
  method NodeAppendRange(newNode: array<byte>, oldNode: array<byte>, dstNew: u16, srcOld: u16, n: u16)
    requires newNode != oldNode
    requires RangeFits(newNode[..], oldNode[..], dstNew, srcOld, n)
    modifies newNode
    ensures n == 0 ==> newNode[..] == old(newNode[..])
    ensures newNode[..] == AppendedRange(old(newNode[..]), old(oldNode[..]), dstNew, srcOld, n)
    ensures oldNode[..] == old(oldNode[..])
  {
    if n == 0 {
      return;
    }
    ghost var s, t := newNode[..], oldNode[..];
    CopyPtrs(newNode, oldNode, dstNew, srcOld, n);
    CopyOffsets(newNode, oldNode, dstNew, srcOld, n, s);
    assert oldNode[..] == t;

    // KVs
    KvCopySource(t, srcOld, n);
    KvCopyTarget(s, t, dstNew, srcOld, n);
    var begin := KvPos(oldNode[..], srcOld).value;
    var end := KvPos(oldNode[..], srcOld + n).value;
    var at := KvPos(newNode[..], dstNew).value;
    KvCopyBounds(s, t, dstNew, srcOld, n, newNode[..], at, begin, end);
    KvCopyStep(s, t, dstNew, srcOld, n, newNode[..], at, t[begin..end]);
    CopyAt(newNode, at, oldNode[begin..end]);
    assert oldNode[..] == t;
  }

  /** Bytes 8i .. 8i+7 of PtrBlock are old's pointer slot src+i. */
  lemma {:induction false} PtrBlockAt(t: seq<byte>, src: nat, n: nat, i: nat)
    requires HasSlots(t) && src + n <= Count(t) && i < n
    ensures PtrBlock(t, src, n)[8 * i..8 * i + 8] == t[PtrPos(src + i)..PtrPos(src + i) + 8]
  {
    var lo, d := PtrPos(src), 8 * i;
    assert PtrPos(src + i) == lo + d;
    SliceOfSlice(t, lo, PtrPos(src + n), d, d + 8);
  }

  /** After the pointer loop, pointer j of `new` is old's src+(j-dst) inside the run and unchanged outside it. */
  lemma {:induction false} PtrsCopiedPtr(s: seq<byte>, t: seq<byte>, dst: u16, src: u16, n: u16, j: nat)
    requires n > 0 && RangeFits(s, t, dst, src, n) && j < Count(s)
    ensures HasSlots(PtrsCopied(s, t, dst, src, n, n)) && Count(PtrsCopied(s, t, dst, src, n, n)) == Count(s)
    ensures Ptr(PtrsCopied(s, t, dst, src, n, n), j) == if dst <= j < dst + n then Ptr(t, src + (j - dst)) else Ptr(s, j)
  {
    var pp, pb := PtrPos(dst), PtrBlock(t, src, n);
    assert PtrsCopied(s, t, dst, src, n, n) == Write(s, pp, pb);
    if dst <= j < dst + n {
      WriteSetsPtr(s, dst, pb, j);
      PtrBlockAt(t, src, n, j - dst);
    } else {
      WriteKeepsPtr(s, pp, pb, j);
    }
  }

  /** The pointer loop keeps the header and every offset of `new`. */
  lemma {:induction false} PtrsCopiedOff(s: seq<byte>, t: seq<byte>, dst: u16, src: u16, n: u16, j: nat)
    requires n > 0 && RangeFits(s, t, dst, src, n) && j <= Count(s)
    ensures HasSlots(PtrsCopied(s, t, dst, src, n, n)) && Count(PtrsCopied(s, t, dst, src, n, n)) == Count(s)
    ensures Kind(PtrsCopied(s, t, dst, src, n, n)) == Kind(s)
    ensures Off(PtrsCopied(s, t, dst, src, n, n), j) == Off(s, j)
  {
    var pp, pb := PtrPos(dst), PtrBlock(t, src, n);
    assert PtrsCopied(s, t, dst, src, n, n) == Write(s, pp, pb);
    WriteKeepsHeader(s, pp, pb);
    WriteKeepsOff(s, pp, pb, j);
  }

  /** Copying pointers and offsets keeps the header. */
  lemma {:induction false} OffsetsCopiedHeader(s: seq<byte>, t: seq<byte>, dst: u16, src: u16, n: u16)
    requires n > 0 && RangeFits(s, t, dst, src, n)
    ensures var o := OffsetsCopied(s, t, dst, src, n, n);
      HasSlots(o) && Count(o) == Count(s) && Kind(o) == Kind(s)
  {
    var p := PtrsCopied(s, t, dst, src, n, n);
    var po, rb := OffPos(Count(s), dst + 1), Rebased(t, src, n, Off(s, dst));
    assert OffsetsCopied(s, t, dst, src, n, n) == Write(p, po, rb);
    PtrsCopiedOff(s, t, dst, src, n, 0);
    WriteKeepsHeader(p, po, rb);
  }

  /** The offset loop keeps the header and the pointers the pointer loop left. */
  lemma {:induction false} OffsetsCopiedPtr(s: seq<byte>, t: seq<byte>, dst: u16, src: u16, n: u16, j: nat)
    requires n > 0 && RangeFits(s, t, dst, src, n) && j < Count(s)
    ensures HasSlots(OffsetsCopied(s, t, dst, src, n, n)) && Count(OffsetsCopied(s, t, dst, src, n, n)) == Count(s)
    ensures Kind(OffsetsCopied(s, t, dst, src, n, n)) == Kind(s)
    ensures Ptr(OffsetsCopied(s, t, dst, src, n, n), j) == if dst <= j < dst + n then Ptr(t, src + (j - dst)) else Ptr(s, j)
  {
    var p := PtrsCopied(s, t, dst, src, n, n);
    var po, rb := OffPos(Count(s), dst + 1), Rebased(t, src, n, Off(s, dst));
    assert OffsetsCopied(s, t, dst, src, n, n) == Write(p, po, rb);
    PtrsCopiedOff(s, t, dst, src, n, 0);
    PtrsCopiedPtr(s, t, dst, src, n, j);
    WriteKeepsHeader(p, po, rb);
    WriteKeepsPtr(p, po, rb, j);
  }

  /** An offset slot inside the copied run holds old's offset rebased onto dst's. */
  lemma {:induction false} OffsetsCopiedOffInside(s: seq<byte>, t: seq<byte>, dst: u16, src: u16, n: u16, j: nat)
    requires n > 0 && RangeFits(s, t, dst, src, n) && dst < j <= dst + n
    ensures HasSlots(OffsetsCopied(s, t, dst, src, n, n)) && Count(OffsetsCopied(s, t, dst, src, n, n)) == Count(s)
    ensures Off(OffsetsCopied(s, t, dst, src, n, n), j) == Wrap16(Off(s, dst) + Off(t, src + (j - dst)) - Off(t, src))
  {
    var p := PtrsCopied(s, t, dst, src, n, n);
    var po, rb := OffPos(Count(s), dst + 1), Rebased(t, src, n, Off(s, dst));
    assert OffsetsCopied(s, t, dst, src, n, n) == Write(p, po, rb);
    PtrsCopiedOff(s, t, dst, src, n, j);
    assert po == OffPos(Count(p), dst + 1);
    WriteSetsOff(p, dst + 1, rb, j);
    RebasedAt(t, src, n, Off(s, dst), j - dst);
  }

  /** An offset slot outside the copied run keeps its value. */
  lemma {:induction false} OffsetsCopiedOffOutside(s: seq<byte>, t: seq<byte>, dst: u16, src: u16, n: u16, j: nat)
    requires n > 0 && RangeFits(s, t, dst, src, n) && j <= Count(s) && !(dst < j <= dst + n)
    ensures HasSlots(OffsetsCopied(s, t, dst, src, n, n)) && Count(OffsetsCopied(s, t, dst, src, n, n)) == Count(s)
    ensures Off(OffsetsCopied(s, t, dst, src, n, n), j) == Off(s, j)
  {
    var p := PtrsCopied(s, t, dst, src, n, n);
    var po, rb := OffPos(Count(s), dst + 1), Rebased(t, src, n, Off(s, dst));
    assert OffsetsCopied(s, t, dst, src, n, n) == Write(p, po, rb);
    PtrsCopiedOff(s, t, dst, src, n, j);
    WriteKeepsOff(p, po, rb, j);
  }

  lemma {:induction false} OffsetsCopiedOff(s: seq<byte>, t: seq<byte>, dst: u16, src: u16, n: u16, j: nat)
    requires n > 0 && RangeFits(s, t, dst, src, n) && j <= Count(s)
    ensures HasSlots(OffsetsCopied(s, t, dst, src, n, n)) && Count(OffsetsCopied(s, t, dst, src, n, n)) == Count(s)
    ensures Off(OffsetsCopied(s, t, dst, src, n, n), j)
      == if dst < j <= dst + n then Wrap16(Off(s, dst) + Off(t, src + (j - dst)) - Off(t, src)) else Off(s, j)
  {
    if dst < j <= dst + n {
      OffsetsCopiedOffInside(s, t, dst, src, n, j);
    } else {
      OffsetsCopiedOffOutside(s, t, dst, src, n, j);
    }
  }

  /** nodeAppendRange keeps the node's type and key count. */
  lemma {:induction false} AppendRangeHeader(s: seq<byte>, t: seq<byte>, dst: u16, src: u16, n: u16)
    requires RangeFits(s, t, dst, src, n) && HasSlots(s)
    ensures var r := AppendedRange(s, t, dst, src, n);
      HasSlots(r) && Count(r) == Count(s) && Kind(r) == Kind(s)
  {
    if n > 0 {
      AppendedRangeIs(s, t, dst, src, n);
      OffsetsCopiedHeader(s, t, dst, src, n);
      WriteKeepsHeader(OffsetsCopied(s, t, dst, src, n, n), KvBase(Count(s)) + Off(s, dst), KvBlock(t, src, n));
    }
  }

  /** After nodeAppendRange pointer j of `new` is old's src+(j-dst) inside the run and unchanged outside it. */
  lemma {:induction false} AppendRangePtr(s: seq<byte>, t: seq<byte>, dst: u16, src: u16, n: u16, j: nat)
    requires n > 0 && RangeFits(s, t, dst, src, n) && j < Count(s)
    ensures HasSlots(AppendedRange(s, t, dst, src, n)) && Count(AppendedRange(s, t, dst, src, n)) == Count(s)
    ensures Ptr(AppendedRange(s, t, dst, src, n), j) == if dst <= j < dst + n then Ptr(t, src + (j - dst)) else Ptr(s, j)
  {
    var o, at, kb := OffsetsCopied(s, t, dst, src, n, n), KvBase(Count(s)) + Off(s, dst), KvBlock(t, src, n);
    assert AppendedRange(s, t, dst, src, n) == Write(o, at, kb);
    OffsetsCopiedPtr(s, t, dst, src, n, j);
    WriteKeepsPtr(o, at, kb, j);
  }

  /**
   * After nodeAppendRange offset j of `new` is new's offset dst plus old's
   * offset src+(j-dst) minus old's offset src, in uint16 arithmetic, for j in
   * (dst, dst+n]; every other offset is unchanged.
   */
  lemma {:induction false} AppendRangeOff(s: seq<byte>, t: seq<byte>, dst: u16, src: u16, n: u16, j: nat)
    requires n > 0 && RangeFits(s, t, dst, src, n) && j <= Count(s)
    ensures HasSlots(AppendedRange(s, t, dst, src, n)) && Count(AppendedRange(s, t, dst, src, n)) == Count(s)
    ensures Off(AppendedRange(s, t, dst, src, n), j)
      == if dst < j <= dst + n then Wrap16(Off(s, dst) + Off(t, src + (j - dst)) - Off(t, src)) else Off(s, j)
  {
    var o, at, kb := OffsetsCopied(s, t, dst, src, n, n), KvBase(Count(s)) + Off(s, dst), KvBlock(t, src, n);
    assert AppendedRange(s, t, dst, src, n) == Write(o, at, kb);
    OffsetsCopiedOff(s, t, dst, src, n, j);
    WriteKeepsOff(o, at, kb, j);
  }

  /** nodeAppendRange's loops write only the slot arrays, so they keep every byte of the record area. */
  lemma {:induction false} OffsetsCopiedKv(s: seq<byte>, t: seq<byte>, dst: u16, src: u16, n: u16, x: nat)
    requires n > 0 && RangeFits(s, t, dst, src, n) && KvBase(Count(s)) <= x < |s|
    ensures OffsetsCopied(s, t, dst, src, n, n)[x] == s[x]
  {
    var pp, pb := PtrPos(dst), PtrBlock(t, src, n);
    var p := Write(s, pp, pb);
    var po, rb := OffPos(Count(s), dst + 1), Rebased(t, src, n, Off(s, dst));
    assert OffsetsCopied(s, t, dst, src, n, n) == Write(p, po, rb);
    WriteAt(s, pp, pb, x);
    WriteAt(p, po, rb, x);
  }

  /**
   * nodeAppendRange's pointers: slots dst .. dst+n-1 of `new` hold old's
   * pointers src .. src+n-1, and every other pointer of `new` is unchanged.
   */
  lemma {:induction false} AppendRangePtrs(s: seq<byte>, t: seq<byte>, dst: u16, src: u16, n: u16)
    requires n > 0 && RangeFits(s, t, dst, src, n)
    ensures HasSlots(AppendedRange(s, t, dst, src, n)) && Count(AppendedRange(s, t, dst, src, n)) == Count(s)
    ensures var r := AppendedRange(s, t, dst, src, n);
      (forall j :: dst <= j < dst + n ==> Ptr(r, j) == Ptr(t, src + (j - dst))) &&
      (forall j :: 0 <= j < Count(s) && !(dst <= j < dst + n) ==> Ptr(r, j) == Ptr(s, j))
  {
    var r := AppendedRange(s, t, dst, src, n);
    AppendRangeHeader(s, t, dst, src, n);
    forall j | dst <= j < dst + n
      ensures Ptr(r, j) == Ptr(t, src + (j - dst))
    {
      AppendRangePtr(s, t, dst, src, n, j);
    }
    forall j | 0 <= j < Count(s) && !(dst <= j < dst + n)
      ensures Ptr(r, j) == Ptr(s, j)
    {
      AppendRangePtr(s, t, dst, src, n, j);
    }
  }

  /**
   * nodeAppendRange's offsets: offset dst+i of `new` (1 <= i <= n) is new's
   * offset dst plus old's offset src+i minus old's offset src, in uint16
   * arithmetic, and every other offset of `new` is unchanged.
   */
  lemma {:induction false} AppendRangeOffs(s: seq<byte>, t: seq<byte>, dst: u16, src: u16, n: u16)
    requires n > 0 && RangeFits(s, t, dst, src, n)
    ensures var r := AppendedRange(s, t, dst, src, n);
      HasSlots(r) && Count(r) == Count(s) &&
      (forall j :: dst < j <= dst + n ==> Off(r, j) == Wrap16(Off(s, dst) + Off(t, src + (j - dst)) - Off(t, src))) &&
      (forall j :: 0 <= j <= Count(s) && !(dst < j <= dst + n) ==> Off(r, j) == Off(s, j))
  {
    var r := AppendedRange(s, t, dst, src, n);
    AppendRangeHeader(s, t, dst, src, n);
    forall j | dst < j <= dst + n
      ensures Off(r, j) == Wrap16(Off(s, dst) + Off(t, src + (j - dst)) - Off(t, src))
    {
      AppendRangeOff(s, t, dst, src, n, j);
    }
    forall j | 0 <= j <= Count(s) && !(dst < j <= dst + n)
      ensures Off(r, j) == Off(s, j)
    {
      AppendRangeOff(s, t, dst, src, n, j);
    }
  }

  /** nodeAppendRange's records: the bytes at new's offset dst are old's records src .. src+n-1. */
  lemma {:induction false} AppendRangeKvBlock(s: seq<byte>, t: seq<byte>, dst: u16, src: u16, n: u16)
    requires n > 0 && RangeFits(s, t, dst, src, n)
    ensures var at := KvBase(Count(s)) + Off(s, dst);
      AppendedRange(s, t, dst, src, n)[at..at + |KvBlock(t, src, n)|] == KvBlock(t, src, n)
  {
    AppendedRangeIs(s, t, dst, src, n);
    WriteWhole(OffsetsCopied(s, t, dst, src, n, n), KvBase(Count(s)) + Off(s, dst), KvBlock(t, src, n));
  }

  /** A byte of the KV area outside the copied block keeps its value from new. */
  lemma {:induction false} AppendRangeKvFrame(s: seq<byte>, t: seq<byte>, dst: u16, src: u16, n: u16, x: nat)
    requires n > 0 && RangeFits(s, t, dst, src, n)
    requires KvBase(Count(s)) <= x < |s| && !(KvBase(Count(s)) + Off(s, dst) <= x < KvBase(Count(s)) + Off(s, dst) + |KvBlock(t, src, n)|)
    ensures AppendedRange(s, t, dst, src, n)[x] == s[x]
  {
    var o, at, kb := OffsetsCopied(s, t, dst, src, n, n), KvBase(Count(s)) + Off(s, dst), KvBlock(t, src, n);
    assert AppendedRange(s, t, dst, src, n) == Write(o, at, kb);
    OffsetsCopiedKv(s, t, dst, src, n, x);
    WriteAt(o, at, kb, x);
  }

  /** The KV area after nodeAppendRange: old's record block sits at new's offset dst, and every other byte of the area is unchanged. */
  lemma {:induction false} AppendRangeKvs(s: seq<byte>, t: seq<byte>, dst: u16, src: u16, n: u16)
    requires n > 0 && RangeFits(s, t, dst, src, n)
    ensures var r := AppendedRange(s, t, dst, src, n);
      var at := KvBase(Count(s)) + Off(s, dst);
      r[at..at + |KvBlock(t, src, n)|] == KvBlock(t, src, n) &&
      (forall x :: KvBase(Count(s)) <= x < |s| && !(at <= x < at + |KvBlock(t, src, n)|) ==> r[x] == s[x])
  {
    AppendRangeKvBlock(s, t, dst, src, n);
    forall x | KvBase(Count(s)) <= x < |s| && !(KvBase(Count(s)) + Off(s, dst) <= x < KvBase(Count(s)) + Off(s, dst) + |KvBlock(t, src, n)|)
      ensures AppendedRange(s, t, dst, src, n)[x] == s[x]
    {
      AppendRangeKvFrame(s, t, dst, src, n, x);
    }
  }
}
