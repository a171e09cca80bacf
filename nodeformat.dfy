/**
 * The byte layout of a B+Tree node (tree.go):
 *
 *   | type 2B | nkeys 2B | pointers nkeys*8B | offsets nkeys*2B | key-values ... |
 *
 * with each key-value record laid out as | klen 2B | vlen 2B | key | val |.
 * Positions here are exact (unbounded) integers; NodeAccess relates Go's
 * uint16 reads to them.
 */
module NodeFormat {
  import opened GoSemantics
  import opened LittleEndian

  const HEADER: nat := 4
  /** One node is one disk page. */
  const BTREE_PAGE_SIZE: nat := 4096
  const BTREE_MAX_KEY_SIZE: nat := 1000
  const BTREE_MAX_VAL_SIZE: nat := 3000

  /** Node types: internal nodes carry child pointers, leaves carry values. */
  const BNODE_NODE: u16 := 1
  const BNODE_LEAF: u16 := 2

  /** The load-time check of tree.go never fails: a node with one maximum-sized pair fits in a page. */
  lemma {:induction false} MaxPairFitsInPage()
    ensures HEADER + 8 + 2 + 4 + BTREE_MAX_KEY_SIZE + BTREE_MAX_VAL_SIZE <= BTREE_PAGE_SIZE
  {
  }

  /** Where pointer slot i starts. */
  function PtrPos(i: nat): nat {
    HEADER + 8 * i
  }

  /** Where offset slot i (1 <= i <= n) starts in a node of n keys; offset 0 is not stored. */
  function OffPos(n: nat, i: nat): nat
    requires 1 <= i
  {
    HEADER + 8 * n + 2 * (i - 1)
  }

  /** Where the key-value records start in a node of n keys. */
  function KvBase(n: nat): nat {
    HEADER + 8 * n + 2 * n
  }

  function Kind(s: seq<byte>): u16
    requires |s| >= HEADER
  {
    U16At(s, 0)
  }

  function Count(s: seq<byte>): u16
    requires |s| >= HEADER
  {
    U16At(s, 2)
  }

  /** The header fits and the pointer and offset arrays of Count(s) slots fit. */
  predicate HasSlots(s: seq<byte>) {
    |s| >= HEADER && KvBase(Count(s)) <= |s|
  }

  /** The child pointer in slot i. */
  function Ptr(s: seq<byte>, i: nat): u64
    requires HasSlots(s) && i < Count(s)
  {
    LeValue(s[PtrPos(i)..PtrPos(i) + 8])
  }

  /** The end of record i-1 within the key-value area, i.e. where record i starts. */
  function Off(s: seq<byte>, i: nat): u16
    requires HasSlots(s) && i <= Count(s)
  {
    if i == 0 then 0 else U16At(s, OffPos(Count(s), i))
  }

  /** A record's bytes are klen, vlen, then exactly klen + vlen bytes of key and value. */
  predicate RecordOk(rec: seq<byte>) {
    |rec| >= 4 && |rec| == 4 + U16At(rec, 0) + U16At(rec, 2)
  }

  function KeyOf(rec: seq<byte>): seq<byte>
    requires RecordOk(rec)
  {
    rec[4..4 + U16At(rec, 0)]
  }

  function ValOf(rec: seq<byte>): seq<byte>
    requires RecordOk(rec)
  {
    rec[4 + U16At(rec, 0)..]
  }

  /** The bytes nodeAppendKV stores for one pair. */
  function EncodeRecord(key: seq<byte>, val: seq<byte>): (rec: seq<byte>)
    requires |key| < 0x1_0000 && |val| < 0x1_0000
    ensures |rec| == 4 + |key| + |val|
  {
    Le16(|key|) + Le16(|val|) + key + val
  }

  lemma {:induction false} EncodeRecordDecodes(key: seq<byte>, val: seq<byte>)
    requires |key| < 0x1_0000 && |val| < 0x1_0000
    ensures RecordOk(EncodeRecord(key, val))
    ensures KeyOf(EncodeRecord(key, val)) == key && ValOf(EncodeRecord(key, val)) == val
  {
    var rec := EncodeRecord(key, val);
    assert rec[0..2] == Le16(|key|) && rec[2..4] == Le16(|val|);
  }

  lemma {:induction false} DecodedRecordEncodes(rec: seq<byte>)
    requires RecordOk(rec)
    ensures |KeyOf(rec)| < 0x1_0000 && |ValOf(rec)| < 0x1_0000
    ensures EncodeRecord(KeyOf(rec), ValOf(rec)) == rec
  {
    assert rec == [rec[0], rec[1]] + [rec[2], rec[3]] + KeyOf(rec) + ValOf(rec);
  }

  /** The end of the occupied bytes: where a record Count(s) would start. */
  function End(s: seq<byte>): nat
    requires HasSlots(s)
  {
    KvBase(Count(s)) + Off(s, Count(s))
  }

  /** Offsets i and i+1 of slot i delimit bytes that lie inside the buffer. */
  predicate SlotSpan(s: seq<byte>, i: nat) {
    HasSlots(s) && i < Count(s) && Off(s, i) <= Off(s, i + 1) && KvBase(Count(s)) + Off(s, i + 1) <= |s|
  }

  /** The bytes of record i: from where offset i points to where offset i+1 points. */
  function Record(s: seq<byte>, i: nat): seq<byte>
    requires SlotSpan(s, i)
  {
    s[KvBase(Count(s)) + Off(s, i)..KvBase(Count(s)) + Off(s, i + 1)]
  }

  /** Slot i holds a record whose length fields match the span its offsets give it. */
  predicate SlotOk(s: seq<byte>, i: nat) {
    SlotSpan(s, i) && RecordOk(Record(s, i))
  }

  /**
   * Slots 0 .. m-1 are filled, as the builders leave a node they fill left to
   * right: offsets 0 .. m never decrease, each of those records spans exactly
   * the distance between its offsets, and the bytes used so far fit both the
   * buffer and a uint16 position.
   */
  predicate FilledUpTo(s: seq<byte>, m: nat) {
    HasSlots(s) && m <= Count(s) &&
    (forall i, j :: 0 <= i <= j <= m ==> Off(s, i) <= Off(s, j)) &&
    KvBase(Count(s)) + Off(s, m) <= |s| && KvBase(Count(s)) + Off(s, m) < 0x1_0000 &&
    forall i :: 0 <= i < m ==> SlotOk(s, i)
  }

  /** A node all of whose accessors succeed without uint16 wrap-around: every slot is filled. */
  predicate WellFormed(s: seq<byte>) {
    HasSlots(s) && FilledUpTo(s, Count(s))
  }

  /** `s` with `x` inserted at position i. */
  function InsertAt<T>(s: seq<T>, i: nat, x: T): (r: seq<T>)
    requires i <= |s|
    ensures |r| == |s| + 1
    ensures forall k :: 0 <= k < |r| ==> r[k] == if k < i then s[k] else if k == i then x else s[k - 1]
  {
    s[..i] + [x] + s[i..]
  }

  /** One key with its pointer and value, as the node presents it. */
  datatype Entry = Entry(ptr: u64, key: seq<byte>, val: seq<byte>)

  function EntryAt(s: seq<byte>, i: nat): Entry
    requires SlotOk(s, i)
  {
    Entry(Ptr(s, i), KeyOf(Record(s, i)), ValOf(Record(s, i)))
  }

  /** The entries of the first m slots, in slot order. */
  function EntriesUpTo(s: seq<byte>, m: nat): (es: seq<Entry>)
    requires FilledUpTo(s, m)
    ensures |es| == m
    ensures forall i :: 0 <= i < m ==> es[i] == EntryAt(s, i)
  {
    seq(m, i requires 0 <= i < m => EntryAt(s, i))
  }

  /** The node's contents, in slot order. */
  function Entries(s: seq<byte>): (es: seq<Entry>)
    requires WellFormed(s)
    ensures |es| == Count(s)
    ensures forall i :: 0 <= i < Count(s) ==> es[i] == EntryAt(s, i)
  {
    EntriesUpTo(s, Count(s))
  }

  /** The keys of a sequence of entries. */
  function KeysOf(es: seq<Entry>): (ks: seq<seq<byte>>)
    ensures |ks| == |es|
    ensures forall i :: 0 <= i < |es| ==> ks[i] == es[i].key
  {
    seq(|es|, i requires 0 <= i < |es| => es[i].key)
  }

  function Keys(s: seq<byte>): (ks: seq<seq<byte>>)
    requires WellFormed(s)
    ensures |ks| == Count(s)
    ensures forall i :: 0 <= i < Count(s) ==> SlotOk(s, i) && ks[i] == KeyOf(Record(s, i))
  {
    KeysOf(Entries(s))
  }
}
