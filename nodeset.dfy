/**
 * The in-place setters of tree.go (setHeader, setPtr, setOffset) on a node's
 * buffer, and what a store at a position leaves of the node's layout.
 */
module NodeSetters {
  import opened GoSemantics
  import opened LittleEndian
  import opened NodeFormat
  import opened NodeAccess

  /**
   * The buffer setHeader leaves: the type at bytes 0..2, then the key count at
   * bytes 2..4. A buffer shorter than two bytes is left alone; one of two or
   * three bytes gets the type only, because the second store panics.
   */
  function Headed(s: seq<byte>, btype: u16, nkeys: u16): (r: seq<byte>)
    ensures |r| == |s|
  {
    if |s| < 2 then s
    else if |s| < HEADER then Write(s, 0, Le16(btype))
    else Write(Write(s, 0, Le16(btype)), 2, Le16(nkeys))
  }

  /** setHeader: store the node type and the key count. */
  method SetHeader(node: array<byte>, btype: u16, nkeys: u16) returns (r: Result<()>)
    modifies node
    ensures r.Ok? <==> node.Length >= HEADER
    ensures node[..] == Headed(old(node[..]), btype, nkeys)
  {
    if node.Length < 2 {
      return Panic(SliceOutOfRange);
    }
    PutUint16(node, 0, btype);
    if node.Length < HEADER {
      return Panic(SliceOutOfRange);
    }
    PutUint16(node, 2, nkeys);
    return Ok(());
  }

  /** After setHeader, btype and nkeys read back what was stored, and no byte past the header changed. */
  lemma {:induction false} HeaderRoundTrip(s: seq<byte>, btype: u16, nkeys: u16)
    requires |s| >= HEADER
    ensures BType(Headed(s, btype, nkeys)) == Ok(btype)
    ensures NKeys(Headed(s, btype, nkeys)) == Ok(nkeys)
    ensures Kind(Headed(s, btype, nkeys)) == btype && Count(Headed(s, btype, nkeys)) == nkeys
    ensures Headed(s, btype, nkeys)[HEADER..] == s[HEADER..]
  {
    var s1 := Write(s, 0, Le16(btype));
    var r := Write(s1, 2, Le16(nkeys));
    WriteBytes(s, 0, Le16(btype));
    WriteBytes(s1, 2, Le16(nkeys));
    HeaderReads(r);
    WriteOutside(s1, 2, Le16(nkeys), HEADER, |s|);
    WriteOutside(s, 0, Le16(btype), HEADER, |s|);
  }

  /** On a buffer of two or three bytes setHeader stores the type, and nkeys then panics. */
  lemma {:induction false} ShortHeader(s: seq<byte>, btype: u16, nkeys: u16)
    requires 2 <= |s| < HEADER
    ensures BType(Headed(s, btype, nkeys)) == Ok(btype)
    ensures NKeys(Headed(s, btype, nkeys)).Panic?
  {
    WriteBytes(s, 0, Le16(btype));
    HeaderReads(Headed(s, btype, nkeys));
  }

  /** setPtr: store `val` in pointer slot idx, which must be below nkeys. */
  method SetPtr(node: array<byte>, idx: u16, val: u64) returns (r: Result<()>)
    modifies node
    ensures r == Panic(IndexOutOfBounds) <==> NKeys(old(node[..])).Ok? && idx >= NKeys(old(node[..])).value
    ensures r.Ok? <==>
      NKeys(old(node[..])).Ok? && idx < NKeys(old(node[..])).value && Wrap16(HEADER + 8 * idx) + 8 <= node.Length
    ensures r.Ok? ==> node[..] == Write(old(node[..]), Wrap16(HEADER + 8 * idx), Le64(val))
    ensures r.Panic? ==> node[..] == old(node[..])
  {
    var n := NKeys(node[..]);
    if n.Panic? {
      return Panic(n.fault);
    }
    if idx >= n.value {
      return Panic(IndexOutOfBounds);
    }
    var pos := Wrap16(HEADER + 8 * idx);
    if pos + 8 > node.Length {
      return Panic(SliceOutOfRange);
    }
    PutUint64(node, pos, val);
    return Ok(());
  }

  /** setOffset: store `offset` in offset slot idx, which must lie in [1, nkeys]. */
  method SetOffset(node: array<byte>, idx: u16, offset: u16) returns (r: Result<()>)
    modifies node
    ensures r == Panic(IndexOutOfBounds) <==> OffsetPos(old(node[..]), idx) == Panic(IndexOutOfBounds)
    ensures idx < 1 ==> r == Panic(IndexOutOfBounds)
    ensures r.Ok? <==> OffsetPos(old(node[..]), idx).Ok? && OffsetPos(old(node[..]), idx).value + 2 <= node.Length
    ensures r.Ok? ==> node[..] == Write(old(node[..]), OffsetPos(old(node[..]), idx).value, Le16(offset))
    ensures r.Panic? ==> node[..] == old(node[..])
  {
    var pos := OffsetPos(node[..], idx);
    if pos.Panic? {
      return Panic(pos.fault);
    }
    if pos.value + 2 > node.Length {
      return Panic(SliceOutOfRange);
    }
    PutUint16(node, pos.value, offset);
    return Ok(());
  }

  /** The slots of a node whose slot arrays fit below 2^16 sit at their unwrapped positions. */
  lemma {:induction false} SlotPositions(s: seq<byte>, idx: u16)
    requires HasSlots(s) && KvBase(Count(s)) <= 0x1_0000
    ensures idx < Count(s) ==> Wrap16(HEADER + 8 * idx) == PtrPos(idx)
    ensures 1 <= idx <= Count(s) ==> OffsetPos(s, idx) == Ok(OffPos(Count(s), idx))
  {
    HeaderReads(s);
  }

  /** A store past the header keeps the node's type and key count. */
  lemma {:induction false} WriteKeepsHeader(s: seq<byte>, pos: nat, bs: seq<byte>)
    requires |s| >= HEADER && HEADER <= pos && pos + |bs| <= |s|
    ensures Kind(Write(s, pos, bs)) == Kind(s) && Count(Write(s, pos, bs)) == Count(s)
    ensures HasSlots(Write(s, pos, bs)) == HasSlots(s)
  {
    WriteBytes(s, pos, bs);
  }

  /** A store past the header and clear of pointer slot j keeps that pointer. */
  lemma {:induction false} WriteKeepsPtr(s: seq<byte>, pos: nat, bs: seq<byte>, j: nat)
    requires HasSlots(s) && HEADER <= pos && pos + |bs| <= |s| && j < Count(s)
    requires pos + |bs| <= PtrPos(j) || PtrPos(j) + 8 <= pos
    ensures HasSlots(Write(s, pos, bs)) && Count(Write(s, pos, bs)) == Count(s) && Ptr(Write(s, pos, bs), j) == Ptr(s, j)
  {
    WriteKeepsHeader(s, pos, bs);
    WriteOutside(s, pos, bs, PtrPos(j), PtrPos(j) + 8);
  }

  /** A store past the header and clear of offset slot j keeps that offset. */
  lemma {:induction false} WriteKeepsOff(s: seq<byte>, pos: nat, bs: seq<byte>, j: nat)
    requires HasSlots(s) && HEADER <= pos && pos + |bs| <= |s| && j <= Count(s)
    requires j == 0 || pos + |bs| <= OffPos(Count(s), j) || OffPos(Count(s), j) + 2 <= pos
    ensures HasSlots(Write(s, pos, bs)) && Count(Write(s, pos, bs)) == Count(s) && Off(Write(s, pos, bs), j) == Off(s, j)
  {
    WriteKeepsHeader(s, pos, bs);
    if j > 0 {
      WriteOutside(s, pos, bs, OffPos(Count(s), j), OffPos(Count(s), j) + 2);
    }
  }

  /** The eight bytes of pointer slot j after a block is stored from pointer slot a onwards. */
  lemma {:induction false} WritePtrBytes(s: seq<byte>, a: nat, bs: seq<byte>, j: nat)
    requires a <= j && PtrPos(a) + |bs| <= |s| && 8 * (j - a) + 8 <= |bs|
    ensures Write(s, PtrPos(a), bs)[PtrPos(j)..PtrPos(j) + 8] == bs[8 * (j - a)..8 * (j - a) + 8]
  {
    var pos, d := PtrPos(a), 8 * (j - a);
    assert PtrPos(j) == pos + d;
    WriteInside(s, pos, bs, pos + d, pos + d + 8);
  }

  /** A block stored from pointer slot a onwards sets pointer slot j to the block's bytes 8(j-a) .. 8(j-a)+8. */
  lemma {:induction false} WriteSetsPtr(s: seq<byte>, a: nat, bs: seq<byte>, j: nat)
    requires HasSlots(s) && a <= j < Count(s) && PtrPos(a) + |bs| <= |s| && 8 * (j - a) + 8 <= |bs|
    ensures HasSlots(Write(s, PtrPos(a), bs)) && Count(Write(s, PtrPos(a), bs)) == Count(s)
    ensures Ptr(Write(s, PtrPos(a), bs), j) == LeValue(bs[8 * (j - a)..8 * (j - a) + 8])
  {
    WriteKeepsHeader(s, PtrPos(a), bs);
    WritePtrBytes(s, a, bs, j);
  }

  /** The two bytes of offset slot j after a block is stored from offset slot a onwards. */
  lemma {:induction false} WriteOffBytes(s: seq<byte>, a: nat, bs: seq<byte>, j: nat)
    requires HasSlots(s) && 1 <= a <= j <= Count(s) && OffPos(Count(s), a) + |bs| <= |s| && 2 * (j - a) + 2 <= |bs|
    ensures Write(s, OffPos(Count(s), a), bs)[OffPos(Count(s), j)] == bs[2 * (j - a)]
    ensures Write(s, OffPos(Count(s), a), bs)[OffPos(Count(s), j) + 1] == bs[2 * (j - a) + 1]
  {
    var pos, d := OffPos(Count(s), a), 2 * (j - a);
    assert OffPos(Count(s), j) == pos + d;
    WriteInsideAt(s, pos, bs, d);
    WriteInsideAt(s, pos, bs, d + 1);
  }

  /** A block stored from offset slot a onwards sets offset slot j to the block's bytes 2(j-a) .. 2(j-a)+2. */
  lemma {:induction false} WriteSetsOff(s: seq<byte>, a: nat, bs: seq<byte>, j: nat)
    requires HasSlots(s) && 1 <= a <= j <= Count(s) && OffPos(Count(s), a) + |bs| <= |s| && 2 * (j - a) + 2 <= |bs|
    ensures HasSlots(Write(s, OffPos(Count(s), a), bs)) && Count(Write(s, OffPos(Count(s), a), bs)) == Count(s)
    ensures Off(Write(s, OffPos(Count(s), a), bs), j) == U16At(bs, 2 * (j - a))
  {
    WriteKeepsHeader(s, OffPos(Count(s), a), bs);
    WriteOffBytes(s, a, bs, j);
  }

  /** setPtr's store makes pointer slot j hold `v`. */
  lemma {:induction false} PtrStored(s: seq<byte>, j: nat, v: u64)
    requires HasSlots(s) && j < Count(s)
    ensures HasSlots(Write(s, PtrPos(j), Le64(v))) && Count(Write(s, PtrPos(j), Le64(v))) == Count(s)
    ensures Ptr(Write(s, PtrPos(j), Le64(v)), j) == v
  {
    WriteKeepsHeader(s, PtrPos(j), Le64(v));
    LeValueOfLeBytes(v, 8);
    WriteInside(s, PtrPos(j), Le64(v), PtrPos(j), PtrPos(j) + 8);
    assert Le64(v)[0..8] == Le64(v);
  }

  /** setPtr's store is read back by getPtr. */
  lemma {:induction false} PtrRoundTrip(s: seq<byte>, j: u16, v: u64)
    requires HasSlots(s) && j < Count(s) && KvBase(Count(s)) <= 0x1_0000
    ensures GetPtr(Write(s, PtrPos(j), Le64(v)), j) == Ok(v)
  {
    PtrStored(s, j, v);
    WriteKeepsHeader(s, PtrPos(j), Le64(v));
    GetPtrReadsSlot(Write(s, PtrPos(j), Le64(v)), j);
  }

  /** setOffset's store makes offset slot j hold `v`. */
  lemma {:induction false} OffStored(s: seq<byte>, j: nat, v: u16)
    requires HasSlots(s) && 1 <= j <= Count(s)
    ensures HasSlots(Write(s, OffPos(Count(s), j), Le16(v))) && Count(Write(s, OffPos(Count(s), j), Le16(v))) == Count(s)
    ensures Off(Write(s, OffPos(Count(s), j), Le16(v)), j) == v
  {
    WriteKeepsHeader(s, OffPos(Count(s), j), Le16(v));
    WriteBytes(s, OffPos(Count(s), j), Le16(v));
  }

  /** setOffset's store is read back by getOffset. */
  lemma {:induction false} OffRoundTrip(s: seq<byte>, j: u16, v: u16)
    requires HasSlots(s) && 1 <= j <= Count(s) && KvBase(Count(s)) <= 0x1_0000
    ensures GetOffset(Write(s, OffPos(Count(s), j), Le16(v)), j) == Ok(v)
  {
    OffStored(s, j, v);
    WriteKeepsHeader(s, OffPos(Count(s), j), Le16(v));
    GetOffsetReadsSlot(Write(s, OffPos(Count(s), j), Le16(v)), j);
  }
}
