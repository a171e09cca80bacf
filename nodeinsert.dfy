/**
 * leafInsert (tree.go): build a new leaf from an old one with one more pair.
 * It sets the header, copies old's slots before idx, appends the new pair at
 * idx, and copies old's remaining slots after it. The stage functions below
 * name the buffer after each of those four steps; the lemmas prove what the
 * finished node holds.
 */
module NodeInsert {
  import opened GoSemantics
  import opened BytesCompare
  import opened NodeFormat
  import opened NodeAccess
  import opened NodeSetters
  import opened NodeAppend
  import opened NodeBuild
  import opened NodeLookup

  /**
   * What leafInsert needs so that none of its steps panics, wraps a uint16 or
   * truncates a copy: a well-formed old node, idx within its keys, and a new
   * buffer with room for old's bytes plus one slot (10 bytes) and one record
   * (4 bytes of lengths, the key and the value), all addressable by uint16.
   */
  predicate InsertFits(s: seq<byte>, t: seq<byte>, idx: u16, key: seq<byte>, val: seq<byte>) {
    WellFormed(t) && idx <= Count(t) &&
    End(t) + 14 + |key| + |val| <= |s| && End(t) + 14 + |key| + |val| < 0x1_0000
  }

  /** The buffer after setHeader(BNODE_LEAF, old.nkeys() + 1). */
  function LeafHeaded(s: seq<byte>, t: seq<byte>, idx: u16, key: seq<byte>, val: seq<byte>): (r: seq<byte>)
    requires InsertFits(s, t, idx, key, val)
    ensures |r| == |s|
  {
    Headed(s, BNODE_LEAF, Count(t) + 1)
  }

  /** The header starts an empty fill of a leaf with one more key than old. */
  lemma {:induction false} LeafHeadedFill(s: seq<byte>, t: seq<byte>, idx: u16, key: seq<byte>, val: seq<byte>)
    requires InsertFits(s, t, idx, key, val)
    ensures var r := LeafHeaded(s, t, idx, key, val);
      Kind(r) == BNODE_LEAF && Count(r) == Count(t) + 1 && FilledUpTo(r, 0) && Off(r, 0) == 0
  {
    HeaderStartsFill(s, BNODE_LEAF, Count(t) + 1);
  }

  /** The first copy, of old's slots 0 .. idx-1, fits. */
  lemma {:induction false} BeforeFits(s: seq<byte>, t: seq<byte>, idx: u16, key: seq<byte>, val: seq<byte>)
    requires InsertFits(s, t, idx, key, val)
    ensures RangeFits(LeafHeaded(s, t, idx, key, val), t, 0, 0, idx)
  {
    LeafHeadedFill(s, t, idx, key, val);
    assert Off(t, idx) <= Off(t, Count(t));
  }

  /** The buffer after nodeAppendRange(new, old, 0, 0, idx). */
  function LeafBefore(s: seq<byte>, t: seq<byte>, idx: u16, key: seq<byte>, val: seq<byte>): (r: seq<byte>)
    requires InsertFits(s, t, idx, key, val)
    ensures |r| == |s|
  {
    BeforeFits(s, t, idx, key, val);
    AppendedRange(LeafHeaded(s, t, idx, key, val), t, 0, 0, idx)
  }

  /** After the first copy, slots 0 .. idx-1 hold old's first idx entries, and offset idx is old's. */
  lemma {:induction false} LeafBeforeFill(s: seq<byte>, t: seq<byte>, idx: u16, key: seq<byte>, val: seq<byte>)
    requires InsertFits(s, t, idx, key, val)
    ensures var r := LeafBefore(s, t, idx, key, val);
      HasSlots(r) && Kind(r) == BNODE_LEAF && Count(r) == Count(t) + 1 &&
      FilledUpTo(r, idx) && EntriesUpTo(r, idx) == Entries(t)[..idx] && Off(r, idx) == Off(t, idx)
  {
    var s0 := LeafHeaded(s, t, idx, key, val);
    LeafHeadedFill(s, t, idx, key, val);
    BeforeFits(s, t, idx, key, val);
    AppendRangeFills(s0, t, 0, 0, idx);
    FilledFromStart(AppendedRange(s0, t, 0, 0, idx), s0, t, idx);
  }

  /** A copy of old's first idx slots into an empty fill holds old's first idx entries and ends at old's offset idx. */
  lemma {:induction false} FilledFromStart(r: seq<byte>, s0: seq<byte>, t: seq<byte>, idx: nat)
    requires WellFormed(t) && idx <= Count(t) && FilledUpTo(s0, 0)
    requires FilledUpTo(r, 0 + idx)
    requires EntriesUpTo(r, 0 + idx) == EntriesUpTo(s0, 0) + Entries(t)[0..0 + idx]
    requires Off(r, 0 + idx) == Off(s0, 0) + Off(t, 0 + idx) - Off(t, 0)
    ensures FilledUpTo(r, idx) && EntriesUpTo(r, idx) == Entries(t)[..idx] && Off(r, idx) == Off(t, idx)
  {
    assert EntriesUpTo(s0, 0) == [];
    assert Entries(t)[0..0 + idx] == Entries(t)[..idx];
  }

  /** The new pair fits at slot idx. */
  lemma {:induction false} WithFits(s: seq<byte>, t: seq<byte>, idx: u16, key: seq<byte>, val: seq<byte>)
    requires InsertFits(s, t, idx, key, val)
    ensures KvFits(LeafBefore(s, t, idx, key, val), idx, key, val)
  {
    LeafBeforeFill(s, t, idx, key, val);
    assert Off(t, idx) <= Off(t, Count(t));
  }

  /** The buffer after nodeAppendKV(new, idx, 0, key, val). */
  function LeafWith(s: seq<byte>, t: seq<byte>, idx: u16, key: seq<byte>, val: seq<byte>): (r: seq<byte>)
    requires InsertFits(s, t, idx, key, val)
    ensures |r| == |s|
  {
    WithFits(s, t, idx, key, val);
    AppendedKV(LeafBefore(s, t, idx, key, val), idx, 0, key, val)
  }

  /**
   * Slots 0 .. idx of a leaf with one slot more than old are filled with old's
   * first idx entries and then the new pair, whose record ends 4+|key|+|val|
   * bytes after old's record idx-1.
   */
  predicate HeadFilled(r: seq<byte>, t: seq<byte>, idx: u16, key: seq<byte>, val: seq<byte>)
    requires WellFormed(t) && idx <= Count(t)
  {
    HasSlots(r) && Kind(r) == BNODE_LEAF && Count(r) == Count(t) + 1 &&
    FilledUpTo(r, idx + 1) && EntriesUpTo(r, idx + 1) == Entries(t)[..idx] + [Entry(0, key, val)] &&
    Off(r, idx + 1) == Off(t, idx) + 4 + |key| + |val|
  }

  /** After the new pair, slots 0 .. idx hold old's first idx entries and then the new pair. */
  lemma {:induction false} LeafWithFill(s: seq<byte>, t: seq<byte>, idx: u16, key: seq<byte>, val: seq<byte>)
    requires InsertFits(s, t, idx, key, val)
    ensures HeadFilled(LeafWith(s, t, idx, key, val), t, idx, key, val)
  {
    LeafBeforeFill(s, t, idx, key, val);
    WithFits(s, t, idx, key, val);
    AppendKVFills(LeafBefore(s, t, idx, key, val), idx, 0, key, val);
  }

  /** The second copy, of old's slots idx .. nkeys-1 to idx+1 .. nkeys, fits. */
  lemma {:induction false} AfterFits(s: seq<byte>, t: seq<byte>, idx: u16, key: seq<byte>, val: seq<byte>)
    requires InsertFits(s, t, idx, key, val)
    ensures RangeFits(LeafWith(s, t, idx, key, val), t, idx + 1, idx, Count(t) - idx)
  {
    LeafWithFill(s, t, idx, key, val);
    assert Off(t, idx) <= Off(t, Count(t));
  }

  /** The buffer leafInsert leaves: after nodeAppendRange(new, old, idx+1, idx, old.nkeys()-idx). */
  function LeafInserted(s: seq<byte>, t: seq<byte>, idx: u16, key: seq<byte>, val: seq<byte>): (r: seq<byte>)
    requires InsertFits(s, t, idx, key, val)
    ensures |r| == |s|
  {
    AfterFits(s, t, idx, key, val);
    AppendedRange(LeafWith(s, t, idx, key, val), t, idx + 1, idx, Count(t) - idx)
  }

  /*
   * The stage lemmas below follow leafInsert's buffer through its steps in the
   * form the builders' postconditions give it: s0 after setHeader, s1 after
   * the first copy, s2 after the new pair and r after the last copy, each
   * stated from the one before. They supply what the next step requires, and
   * the last names r by LeafInserted.
   */

  /** After setHeader, the first copy fits. */
  lemma {:induction false} HeadStage(s: seq<byte>, t: seq<byte>, idx: u16, key: seq<byte>, val: seq<byte>,
                                     nkeys: u16, s0: seq<byte>)
    requires InsertFits(s, t, idx, key, val) && nkeys as int == Count(t) && nkeys < 0xFFFF
    requires s0 == Headed(s, BNODE_LEAF, nkeys + 1)
    ensures RangeFits(s0, t, 0, 0, idx)
  {
    BeforeFits(s, t, idx, key, val);
  }

  /** After the first copy, the new pair fits. */
  lemma {:induction false} BeforeStage(s: seq<byte>, t: seq<byte>, idx: u16, key: seq<byte>, val: seq<byte>,
                                       nkeys: u16, s0: seq<byte>, s1: seq<byte>)
    requires InsertFits(s, t, idx, key, val) && nkeys as int == Count(t) && nkeys < 0xFFFF
    requires s0 == Headed(s, BNODE_LEAF, nkeys + 1)
    requires RangeFits(s0, t, 0, 0, idx) && s1 == AppendedRange(s0, t, 0, 0, idx)
    ensures KvFits(s1, idx, key, val)
  {
    assert s1 == LeafBefore(s, t, idx, key, val);
    WithFits(s, t, idx, key, val);
  }

  /** After the last copy, the buffer is the one LeafInserted names. */
  lemma {:induction false} LastStage(s: seq<byte>, t: seq<byte>, idx: u16, key: seq<byte>, val: seq<byte>,
                                     s2: seq<byte>, t2: seq<byte>, dst: u16, n: u16, r: seq<byte>)
    requires InsertFits(s, t, idx, key, val) && dst as int == idx + 1 && n as int == Count(t) - idx
    requires s2 == LeafWith(s, t, idx, key, val) && t2 == t
    requires RangeFits(s2, t2, dst, idx, n) && r == AppendedRange(s2, t2, dst, idx, n)
    ensures r == LeafInserted(s, t, idx, key, val)
  {
  }

  /**
   * What leafInsert's last copy leaves in r, given s2 with its first idx+1
   * slots filled: a well-formed node of s2's kind and size holding s2's first
   * idx+1 entries and then old's entries from idx on, its records ending where
   * s2's do plus the bytes of old's records from idx on.
   */
  predicate TailFilled(r: seq<byte>, s2: seq<byte>, t: seq<byte>, idx: u16)
    requires WellFormed(t) && idx <= Count(t) && HasSlots(s2) && FilledUpTo(s2, idx + 1)
  {
    HasSlots(r) && Count(r) == Count(s2) && Kind(r) == Kind(s2) && WellFormed(r) &&
    Entries(r) == EntriesUpTo(s2, idx + 1) + Entries(t)[idx..] &&
    End(r) == KvBase(Count(s2)) + Off(s2, idx + 1) + Off(t, Count(t)) - Off(t, idx)
  }

  /**
   * The last copy of leafInsert, nodeAppendRange(new, old, idx+1, idx,
   * nkeys-idx), from a buffer whose first idx+1 slots are filled, fills the
   * rest of it with old's entries from idx on.
   */
  lemma {:induction false} TailFills(s2: seq<byte>, t: seq<byte>, idx: u16)
    requires WellFormed(t) && idx <= Count(t) && HasSlots(s2) && Count(s2) == Count(t) + 1
    requires FilledUpTo(s2, idx + 1) && RangeFits(s2, t, idx + 1, idx, Count(t) - idx)
    ensures TailFilled(AppendedRange(s2, t, idx + 1, idx, Count(t) - idx), s2, t, idx)
  {
    var dst, n := idx + 1, Count(t) - idx;
    assert FilledUpTo(s2, dst) == FilledUpTo(s2, idx + 1);
    assert RangeFits(s2, t, dst, idx, n) == RangeFits(s2, t, idx + 1, idx, Count(t) - idx);
    assert AppendedRange(s2, t, dst, idx, n) == AppendedRange(s2, t, idx + 1, idx, Count(t) - idx);
    TailCopyFills(s2, t, idx, dst, n);
    assert TailFilled(AppendedRange(s2, t, dst, idx, n), s2, t, idx);
  }

  /** TailFills, with the copy's destination slot dst and count n named. */
  lemma {:induction false} TailCopyFills(s2: seq<byte>, t: seq<byte>, idx: u16, dst: u16, n: u16)
    requires WellFormed(t) && idx <= Count(t) && HasSlots(s2) && Count(s2) == Count(t) + 1
    requires dst as int == idx + 1 && n as int == Count(t) - idx
    requires FilledUpTo(s2, dst) && RangeFits(s2, t, dst, idx, n)
    ensures TailFilled(AppendedRange(s2, t, dst, idx, n), s2, t, idx)
  {
    AppendRangeFills(s2, t, dst, idx, n);
    FilledToEnd(AppendedRange(s2, t, dst, idx, n), s2, t, idx, dst, n);
  }

  /**
   * A buffer with one slot more than old, filled up to its last slot with the
   * first idx+1 entries of s2 and old's entries from idx on, is well formed and
   * holds exactly those entries.
   */
  lemma {:induction false} FilledToEnd(r: seq<byte>, s2: seq<byte>, t: seq<byte>, idx: u16, dst: nat, n: nat)
    requires WellFormed(t) && idx <= Count(t) && dst == idx + 1 && n == Count(t) - idx
    requires HasSlots(s2) && FilledUpTo(s2, dst)
    requires HasSlots(r) && Count(r) == Count(s2) && Count(r) == Count(t) + 1 && Kind(r) == Kind(s2)
    requires FilledUpTo(r, dst + n)
    requires EntriesUpTo(r, dst + n) == EntriesUpTo(s2, dst) + Entries(t)[idx..idx + n]
    requires Off(r, dst + n) == Off(s2, dst) + Off(t, idx + n) - Off(t, idx)
    ensures TailFilled(r, s2, t, idx)
  {
    assert dst + n == Count(r) && idx + n == Count(t);
    assert Entries(t)[idx..idx + n] == Entries(t)[idx..];
  }

  /**
   * leafInsert: the new node is a leaf with one more key than old, every slot
   * filled; its entries are old's with (key, val) and a zero pointer inserted
   * at idx; its occupied bytes grow by one slot and one record.
   */
  lemma {:induction false} LeafInsertContents(s: seq<byte>, t: seq<byte>, idx: u16, key: seq<byte>, val: seq<byte>)
    requires InsertFits(s, t, idx, key, val)
    ensures var r := LeafInserted(s, t, idx, key, val);
      Kind(r) == BNODE_LEAF && Count(r) == Count(t) + 1 && WellFormed(r) &&
      Entries(r) == InsertAt(Entries(t), idx, Entry(0, key, val)) &&
      End(r) == End(t) + 14 + |key| + |val|
  {
    var s2, r := LeafWith(s, t, idx, key, val), LeafInserted(s, t, idx, key, val);
    LeafWithFill(s, t, idx, key, val);
    AfterFits(s, t, idx, key, val);
    TailFills(s2, t, idx);
    InsertedContents(r, s2, t, idx, key, val);
  }

  /**
   * A buffer r that the last copy filled after s2's first idx+1 entries, old's
   * first idx entries and then the new pair, holds old's entries with the new
   * pair inserted at idx, in one slot and one record more than old.
   */
  lemma {:induction false} InsertedContents(r: seq<byte>, s2: seq<byte>, t: seq<byte>, idx: u16, key: seq<byte>, val: seq<byte>)
    requires WellFormed(t) && idx <= Count(t) && HeadFilled(s2, t, idx, key, val) && TailFilled(r, s2, t, idx)
    ensures Kind(r) == BNODE_LEAF && Count(r) == Count(t) + 1 && WellFormed(r)
    ensures Entries(r) == InsertAt(Entries(t), idx, Entry(0, key, val))
    ensures End(r) == End(t) + 14 + |key| + |val|
  {
    var es, e := Entries(t), Entry(0, key, val);
    assert InsertAt(es, idx, e) == es[..idx] + [e] + es[idx..];
  }

  /**
   * What the read accessors report on a node holding what leafInsert leaves
   * (the contents LeafInsertContents proves, with `es` old's entries and
   * `end` old's occupied bytes): a leaf with nkeys+1 keys, the new key and
   * value at idx behind a zero pointer, and nbytes grown by
   * 14 + len(key) + len(val).
   */
  lemma {:induction false} LeafInsertReads(r: seq<byte>, es: seq<Entry>, end: nat, idx: u16, key: seq<byte>, val: seq<byte>)
    requires idx as int <= |es|
    requires WellFormed(r) && Kind(r) == BNODE_LEAF && Entries(r) == InsertAt(es, idx, Entry(0, key, val))
    requires End(r) == end + 14 + |key| + |val|
    ensures BType(r) == Ok(BNODE_LEAF) && NKeys(r) == Ok(|es| + 1)
    ensures GetPtr(r, idx) == Ok(0) && GetKey(r, idx) == Ok(key) && GetVal(r, idx) == Ok(val)
    ensures Nbytes(r) == Ok(end + 14 + |key| + |val|)
  {
    var e := Entry(0, key, val);
    InsertedAt(Entries(r), es, idx, e);
    WellFormedReads(r, idx);
  }

  /** A sequence with x inserted at i is one longer and holds x at i. */
  lemma {:induction false} InsertedAt<T>(got: seq<T>, es: seq<T>, i: nat, x: T)
    requires i <= |es| && got == InsertAt(es, i, x)
    ensures |got| == |es| + 1 && got[i] == x
  {
  }

  /** The keys of entries with one entry inserted are the keys with its key inserted. */
  lemma {:induction false} KeysOfInsertAt(es: seq<Entry>, i: nat, e: Entry)
    requires i <= |es|
    ensures KeysOf(InsertAt(es, i, e)) == InsertAt(KeysOf(es), i, e.key)
  {
    var l, r := KeysOf(InsertAt(es, i, e)), InsertAt(KeysOf(es), i, e.key);
    forall k | 0 <= k < |l|
      ensures l[k] == r[k]
    {
    }
  }

  /** leafInsert puts the new key at position idx of old's keys. */
  lemma {:induction false} LeafInsertKeys(s: seq<byte>, t: seq<byte>, idx: u16, key: seq<byte>, val: seq<byte>)
    requires InsertFits(s, t, idx, key, val)
    ensures var r := LeafInserted(s, t, idx, key, val);
      WellFormed(r) && Keys(r) == InsertAt(Keys(t), idx, key)
  {
    var r := LeafInserted(s, t, idx, key, val);
    LeafInsertContents(s, t, idx, key, val);
    KeysOfInsertAt(Entries(t), idx, Entry(0, key, val));
    assert Keys(r) == KeysOf(Entries(r));
    assert Keys(t) == KeysOf(Entries(t));
  }

  /**
   * Inserting a key that old does not hold, at the slot after the one
   * nodeLookupLE finds for it, keeps the new leaf's keys strictly increasing
   * (key 0 of old sorts before the new key, as the lower bound of the node).
   */
  lemma {:induction false} LeafInsertSorted(s: seq<byte>, t: seq<byte>, idx: u16, key: seq<byte>, val: seq<byte>)
    requires InsertFits(s, t, idx, key, val) && Count(t) >= 1
    requires StrictlyIncreasing(Keys(t)) && Compare(Keys(t)[0], key) < 0 && key !in Keys(t)
    requires idx == Floor(Keys(t), key) + 1
    ensures var r := LeafInserted(s, t, idx, key, val);
      WellFormed(r) && StrictlyIncreasing(Keys(r))
  {
    LeafInsertKeys(s, t, idx, key, val);
    InsertAfterFloorSorted(Keys(t), key);
  }

  /** The first three steps of leafInsert: setHeader, the copy before idx and the new pair. */
  method LeafInsertFront(newNode: array<byte>, oldNode: array<byte>, idx: u16, key: seq<byte>, val: seq<byte>, nkeys: u16)
    requires newNode != oldNode
    requires InsertFits(newNode[..], oldNode[..], idx, key, val) && nkeys as int == Count(oldNode[..])
    modifies newNode
    ensures newNode[..] == LeafWith(old(newNode[..]), oldNode[..], idx, key, val)
  {
    ghost var s, t := newNode[..], oldNode[..];
    assert nkeys < 0xFFFF;
    var ok := SetHeader(newNode, BNODE_LEAF, nkeys + 1);
    assert ok.Ok?;
    ghost var s0 := newNode[..];
    assert RangeFits(s0, t, 0, 0, idx) by { HeadStage(s, t, idx, key, val, nkeys, s0); }
    NodeAppendRange(newNode, oldNode, 0, 0, idx);
    ghost var s1 := newNode[..];
    assert KvFits(s1, idx, key, val) by { BeforeStage(s, t, idx, key, val, nkeys, s0, s1); }
    NodeAppendKV(newNode, idx, 0, key, val);
    assert newNode[..] == LeafWith(s, t, idx, key, val) by {
      assert s1 == LeafBefore(s, t, idx, key, val);
    }
  }

  /**
   * leafInsert on arrays: setHeader, then the three builder calls, each
   * leaving the buffer its stage function describes; old is only read.
   */
  method LeafInsert(newNode: array<byte>, oldNode: array<byte>, idx: u16, key: seq<byte>, val: seq<byte>)
    requires newNode != oldNode
    requires InsertFits(newNode[..], oldNode[..], idx, key, val)
    modifies newNode
    ensures newNode[..] == LeafInserted(old(newNode[..]), old(oldNode[..]), idx, key, val)
    ensures oldNode[..] == old(oldNode[..])
  {
    ghost var s, t := newNode[..], oldNode[..];
    assert NKeys(t) == Ok(Count(t)) by { HeaderReads(t); }
    var nkeys := NKeys(oldNode[..]).value;
    LeafInsertFront(newNode, oldNode, idx, key, val, nkeys);
    ghost var s2, t2 := newNode[..], oldNode[..];
    assert s2 == LeafWith(s, t, idx, key, val) && t2 == t;
    var dst, n := idx + 1, nkeys - idx;
    assert RangeFits(s2, t2, dst, idx, n) by { AfterFits(s, t, idx, key, val); }
    NodeAppendRange(newNode, oldNode, dst, idx, n);
    LastStage(s, t, idx, key, val, s2, t2, dst, n, newNode[..]);
  }
}
