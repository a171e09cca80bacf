/**
 * The typed accessors of tree.go over a node's byte buffer, as Go evaluates them:
 * uint16 position arithmetic wraps, an index outside the node's keys panics with
 * "Index out of bounds", and a slice or a decode past the buffer's end panics in
 * the runtime.
 */
module NodeAccess {
  import opened GoSemantics
  import opened LittleEndian
  import opened NodeFormat

  /** The node's type: bytes 0 .. 1, which the runtime needs to exist. */
  function BType(node: seq<byte>): (r: Result<u16>)
    ensures r.Ok? <==> |node| >= 2
    ensures r.Ok? ==> Le16(r.value) == node[..2]
    ensures |node| >= HEADER ==> r == Ok(Kind(node))
  {
    ReadU16(node, 0)
  }

  /** The node's number of keys: bytes 2 .. 3, which the runtime needs to exist. */
  function NKeys(node: seq<byte>): (r: Result<u16>)
    ensures r.Ok? <==> |node| >= HEADER
    ensures r.Ok? ==> Le16(r.value) == node[2..HEADER]
    ensures r.Ok? ==> r == Ok(Count(node))
  {
    ReadU16(node, 2)
  }

  function GetPtr(node: seq<byte>, idx: u16): (r: Result<u64>)
    ensures r == Panic(IndexOutOfBounds) <==> NKeys(node).Ok? && idx >= NKeys(node).value
  {
    var n :- NKeys(node);
    if idx >= n then Panic(IndexOutOfBounds) else ReadU64(node, Wrap16(HEADER + 8 * idx))
  }

  /** Where offset slot idx is stored; `idx < 1` is tested before nkeys is read, as Go's `||` does. */
  function OffsetPos(node: seq<byte>, idx: u16): (r: Result<u16>)
    ensures r == Panic(IndexOutOfBounds) <==> idx < 1 || (NKeys(node).Ok? && idx > NKeys(node).value)
    ensures r.Ok? ==> NKeys(node).Ok? && 1 <= idx <= NKeys(node).value
  {
    if idx < 1 then Panic(IndexOutOfBounds)
    else
      var n :- NKeys(node);
      if idx > n then Panic(IndexOutOfBounds) else Ok(Wrap16(HEADER + 8 * n + 2 * (idx - 1)))
  }

  function GetOffset(node: seq<byte>, idx: u16): (r: Result<u16>)
    ensures idx == 0 ==> r == Ok(0)
    ensures r == Panic(IndexOutOfBounds) <==> idx >= 1 && NKeys(node).Ok? && idx > NKeys(node).value
  {
    if idx == 0 then Ok(0)
    else
      var pos :- OffsetPos(node, idx);
      ReadU16(node, pos)
  }

  /** Where record idx starts in the buffer. */
  function KvPos(node: seq<byte>, idx: u16): (r: Result<u16>)
    ensures r == Panic(IndexOutOfBounds) <==> NKeys(node).Ok? && idx > NKeys(node).value
  {
    var n :- NKeys(node);
    if idx > n then Panic(IndexOutOfBounds)
    else
      var off :- GetOffset(node, idx);
      Ok(Wrap16(HEADER + 8 * n + 2 * n + off))
  }

  function GetKey(node: seq<byte>, idx: u16): (r: Result<seq<byte>>)
    ensures r == Panic(IndexOutOfBounds) <==> NKeys(node).Ok? && idx >= NKeys(node).value
  {
    var n :- NKeys(node);
    if idx >= n then Panic(IndexOutOfBounds)
    else
      var pos :- KvPos(node, idx);
      var klen :- ReadU16(node, pos);
      Slice(node, Wrap16(pos + 4), klen)
  }

  function GetVal(node: seq<byte>, idx: u16): (r: Result<seq<byte>>)
    ensures r == Panic(IndexOutOfBounds) <==> NKeys(node).Ok? && idx >= NKeys(node).value
  {
    var n :- NKeys(node);
    if idx >= n then Panic(IndexOutOfBounds)
    else
      var pos :- KvPos(node, idx);
      var klen :- ReadU16(node, pos);
      var vlen :- ReadU16(node, Wrap16(pos + 2));
      Slice(node, Wrap16(pos + 4 + klen), vlen)
  }

  /**
   * The node's size in bytes, kvPos(nkeys): it never panics with "Index out
   * of bounds", needs the header and, past zero keys, offset slot nkeys in the
   * buffer; a node without keys is just its header.
   */
  function Nbytes(node: seq<byte>): (r: Result<u16>)
    ensures r != Panic(IndexOutOfBounds)
    ensures r.Ok? <==> |node| >= HEADER && (Count(node) == 0 || Wrap16(HEADER + 10 * Count(node) - 2) + 2 <= |node|)
    ensures |node| >= HEADER && Count(node) == 0 ==> r == Ok(HEADER)
  {
    var n :- NKeys(node);
    KvPos(node, n)
  }

  /** The header accessors decode the first four bytes. */
  lemma {:induction false} HeaderReads(s: seq<byte>)
    ensures BType(s).Ok? <==> |s| >= 2
    ensures NKeys(s).Ok? <==> |s| >= HEADER
    ensures |s| >= HEADER ==> BType(s) == Ok(Kind(s)) && NKeys(s) == Ok(Count(s))
  {
  }

  /** Without wrap-around, getPtr decodes pointer slot i. */
  lemma {:induction false} GetPtrReadsSlot(s: seq<byte>, i: u16)
    requires HasSlots(s) && i < Count(s) && KvBase(Count(s)) <= 0x1_0000
    ensures GetPtr(s, i) == Ok(Ptr(s, i))
  {
    HeaderReads(s);
  }

  /** Without wrap-around, getOffset decodes offset slot i, and kvPos adds it to the records' base. */
  lemma {:induction false} GetOffsetReadsSlot(s: seq<byte>, i: u16)
    requires HasSlots(s) && i <= Count(s) && KvBase(Count(s)) <= 0x1_0000
    ensures GetOffset(s, i) == Ok(Off(s, i))
    ensures KvBase(Count(s)) + Off(s, i) < 0x1_0000 ==> KvPos(s, i) == Ok(KvBase(Count(s)) + Off(s, i))
  {
    HeaderReads(s);
  }

  /** The bytes at record i's position form the record `rec`, and no position past it wraps. */
  predicate RecordAtSlot(s: seq<byte>, i: nat, rec: seq<byte>) {
    HasSlots(s) && i < Count(s) && RecordOk(rec) &&
    KvBase(Count(s)) + Off(s, i) + |rec| <= |s| &&
    KvBase(Count(s)) + Off(s, i) + |rec| < 0x1_0000 &&
    s[KvBase(Count(s)) + Off(s, i)..KvBase(Count(s)) + Off(s, i) + |rec|] == rec
  }

  /** The length fields, key and value of such a record, at their buffer positions. */
  lemma {:induction false} RecordBytesAt(s: seq<byte>, i: nat, rec: seq<byte>)
    requires RecordAtSlot(s, i, rec)
    ensures var pos := KvBase(Count(s)) + Off(s, i);
      var klen := U16At(rec, 0);
      ReadU16(s, pos) == Ok(klen) &&
      ReadU16(s, pos + 2) == Ok(U16At(rec, 2)) &&
      s[pos + 4..pos + 4 + klen] == KeyOf(rec) &&
      s[pos + 4 + klen..pos + |rec|] == ValOf(rec)
  {
    var pos := KvBase(Count(s)) + Off(s, i);
    var klen := U16At(rec, 0);
    assert s[pos..pos + |rec|][0..4] == rec[0..4];
    SliceOfSlice(s, pos, pos + |rec|, 4, 4 + klen);
    SliceOfSlice(s, pos, pos + |rec|, 4 + klen, |rec|);
  }

  /** getKey returns the key of the record stored at slot i. */
  lemma {:induction false} GetKeyReadsRecord(s: seq<byte>, i: u16, rec: seq<byte>)
    requires RecordAtSlot(s, i, rec)
    ensures GetKey(s, i) == Ok(KeyOf(rec))
  {
    GetOffsetReadsSlot(s, i);
    RecordBytesAt(s, i, rec);
  }

  /** getVal returns the value of the record stored at slot i. */
  lemma {:induction false} GetValReadsRecord(s: seq<byte>, i: u16, rec: seq<byte>)
    requires RecordAtSlot(s, i, rec)
    ensures GetVal(s, i) == Ok(ValOf(rec))
  {
    GetOffsetReadsSlot(s, i);
    RecordBytesAt(s, i, rec);
  }

  /** Once slots 0 .. m-1 are filled, getOffset and kvPos of any index up to m return the layout's offsets and positions. */
  lemma {:induction false} OffsetReads(s: seq<byte>, m: nat, i: u16)
    requires FilledUpTo(s, m) && i <= m
    ensures GetOffset(s, i) == Ok(Off(s, i))
    ensures KvPos(s, i) == Ok(KvBase(Count(s)) + Off(s, i))
  {
    assert Off(s, i) <= Off(s, m);
    GetOffsetReadsSlot(s, i);
  }

  /** On a well-formed node, nbytes is the end of the occupied bytes. */
  lemma {:induction false} NbytesReads(s: seq<byte>)
    requires WellFormed(s)
    ensures NKeys(s) == Ok(Count(s))
    ensures Nbytes(s) == Ok(End(s))
  {
    HeaderReads(s);
    OffsetReads(s, Count(s), Count(s));
  }

  /** The record of a filled slot sits at its slot. */
  lemma {:induction false} RecordInPlace(s: seq<byte>, m: nat, i: nat)
    requires FilledUpTo(s, m) && i < m
    ensures RecordAtSlot(s, i, Record(s, i))
  {
    assert SlotOk(s, i);
    assert Off(s, i) <= Off(s, i + 1) <= Off(s, m);
  }

  /** Once slots 0 .. m-1 are filled, getPtr, getKey and getVal of slot i < m return entry i. */
  lemma {:induction false} EntryReads(s: seq<byte>, m: nat, i: u16)
    requires FilledUpTo(s, m) && i < m
    ensures GetPtr(s, i) == Ok(EntriesUpTo(s, m)[i].ptr)
    ensures GetKey(s, i) == Ok(EntriesUpTo(s, m)[i].key)
    ensures GetVal(s, i) == Ok(EntriesUpTo(s, m)[i].val)
  {
    GetPtrReadsSlot(s, i);
    RecordInPlace(s, m, i);
    GetKeyReadsRecord(s, i, Record(s, i));
    GetValReadsRecord(s, i, Record(s, i));
  }

  /** On a well-formed node getKey returns the node's key i. */
  lemma {:induction false} KeyReads(s: seq<byte>, i: u16)
    requires WellFormed(s) && i < Count(s)
    ensures GetKey(s, i) == Ok(Keys(s)[i])
  {
    RecordInPlace(s, Count(s), i);
    GetKeyReadsRecord(s, i, Record(s, i));
  }

  /**
   * On a well-formed node every reader succeeds and reports the node's
   * contents: btype and nkeys its header, getPtr, getKey and getVal entry i,
   * and nbytes where its last record ends.
   */
  lemma {:induction false} WellFormedReads(s: seq<byte>, i: u16)
    requires WellFormed(s) && i < Count(s)
    ensures BType(s) == Ok(Kind(s)) && NKeys(s) == Ok(Count(s))
    ensures GetPtr(s, i) == Ok(Entries(s)[i].ptr) && GetKey(s, i) == Ok(Entries(s)[i].key) && GetVal(s, i) == Ok(Entries(s)[i].val)
    ensures Nbytes(s) == Ok(End(s))
  {
    HeaderReads(s);
    NbytesReads(s);
    EntryReads(s, Count(s), i);
  }
}
