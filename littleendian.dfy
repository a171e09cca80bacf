/**
 * Little-endian integers in byte strings (Go's `binary.LittleEndian`) and the
 * byte-level effect of writing into a buffer (`copy`, `PutUint16`, `PutUint64`).
 */
module LittleEndian {
  import opened GoSemantics

  function Pow256(w: nat): (p: nat)
    ensures p >= 1
  {
    if w == 0 then 1 else 256 * Pow256(w - 1)
  }

  /** The unsigned integer a byte string encodes, least significant byte first. */
  function LeValue(bs: seq<byte>): (v: nat)
    ensures v < Pow256(|bs|)
  {
    if |bs| == 0 then 0 else bs[0] + 256 * LeValue(bs[1..])
  }

  /** The `w`-byte little-endian encoding of `v`. */
  function LeBytes(v: nat, w: nat): (bs: seq<byte>)
    requires v < Pow256(w)
    ensures |bs| == w
  {
    if w == 0 then [] else [v % 256] + LeBytes(v / 256, w - 1)
  }

  lemma {:induction false} LeValueOfLeBytes(v: nat, w: nat)
    requires v < Pow256(w)
    ensures LeValue(LeBytes(v, w)) == v
  {
    if w > 0 {
      LeValueOfLeBytes(v / 256, w - 1);
      assert LeBytes(v, w)[1..] == LeBytes(v / 256, w - 1);
    }
  }

  lemma {:induction false} LeBytesOfLeValue(bs: seq<byte>)
    ensures LeBytes(LeValue(bs), |bs|) == bs
  {
    if |bs| > 0 {
      var v := LeValue(bs);
      LeBytesOfLeValue(bs[1..]);
      assert v % 256 == bs[0] && v / 256 == LeValue(bs[1..]);
      assert bs == [bs[0]] + bs[1..];
    }
  }

  /** The 16-bit little-endian value stored at `pos`: low byte first. */
  function U16At(s: seq<byte>, pos: nat): u16
    requires pos + 2 <= |s|
  {
    s[pos] as int + 256 * s[pos + 1] as int
  }

  /** The two bytes `PutUint16` stores for `v`, low byte first. */
  function Le16(v: u16): (bs: seq<byte>)
    ensures |bs| == 2
  {
    [v % 256, v / 256]
  }

  /** Le16 is the two-byte case of LeBytes, and U16At decodes what it encodes. */
  lemma {:induction false} Le16RoundTrip(v: u16, bs: seq<byte>)
    requires |bs| == 2
    ensures Le16(v) == LeBytes(v, 2)
    ensures U16At(Le16(v), 0) == v
    ensures Le16(U16At(bs, 0)) == bs
  {
    assert LeBytes(v / 256, 1) == [v / 256] + LeBytes(v / 256 / 256, 0);
  }

  /** The eight bytes `PutUint64` stores for `v`. */
  function Le64(v: u64): (bs: seq<byte>)
    ensures |bs| == 8
  {
    assert Pow256(8) == 0x1_0000_0000_0000_0000;
    LeBytes(v, 8)
  }

  /** `binary.LittleEndian.Uint16(s[pos:])`: panics unless two bytes are available at `pos`. */
  function ReadU16(s: seq<byte>, pos: nat): (r: Result<u16>)
    ensures r.Ok? <==> pos + 2 <= |s|
  {
    if pos + 2 <= |s| then
      Ok(U16At(s, pos))
    else
      Panic(SliceOutOfRange)
  }

  /** `binary.LittleEndian.Uint64(s[pos:])`: panics unless eight bytes are available at `pos`. */
  function ReadU64(s: seq<byte>, pos: nat): (r: Result<u64>)
    ensures r.Ok? <==> pos + 8 <= |s|
  {
    if pos + 8 <= |s| then
      var v := LeValue(s[pos..pos + 8]);
      assert Pow256(8) == 0x1_0000_0000_0000_0000;
      Ok(v)
    else
      Panic(SliceOutOfRange)
  }

  /** `s[start:][:len]`, with the capacity of `s` equal to its length. */
  function Slice(s: seq<byte>, start: nat, len: nat): (r: Result<seq<byte>>)
    ensures r.Ok? <==> start + len <= |s|
    ensures r.Ok? ==> |r.value| == len && forall k :: 0 <= k < len ==> r.value[k] == s[start + k]
  {
    if start <= |s| && len <= |s| - start then Ok(s[start..start + len]) else Panic(SliceOutOfRange)
  }

  /**
   * The buffer `s` after the bytes `bs` are stored at `pos` onwards, one byte
   * at a time. What each byte of the result holds is stated by WriteBytes.
   */
  function Write<T>(s: seq<T>, pos: nat, bs: seq<T>): (r: seq<T>)
    requires pos + |bs| <= |s|
    ensures |r| == |s|
    decreases |bs|
  {
    if |bs| == 0 then s else Write(s[pos := bs[0]], pos + 1, bs[1..])
  }

  /** Inside the window a write holds the written bytes; outside it the buffer is unchanged. */
  lemma {:induction false} WriteBytes<T>(s: seq<T>, pos: nat, bs: seq<T>)
    requires pos + |bs| <= |s|
    ensures forall k :: 0 <= k < |s| ==> Write(s, pos, bs)[k] == if pos <= k < pos + |bs| then bs[k - pos] else s[k]
    decreases |bs|
  {
    if |bs| > 0 {
      WriteBytes(s[pos := bs[0]], pos + 1, bs[1..]);
    }
  }

  /** Byte k of a write: from `bs` inside the window, from `s` outside it. */
  lemma {:induction false} WriteAt<T>(s: seq<T>, pos: nat, bs: seq<T>, k: nat)
    requires pos + |bs| <= |s| && k < |s|
    ensures Write(s, pos, bs)[k] == if pos <= k < pos + |bs| then bs[k - pos] else s[k]
  {
    WriteBytes(s, pos, bs);
  }

  /** Byte d of the written window holds byte d of the written bytes. */
  lemma {:induction false} WriteInsideAt<T>(s: seq<T>, pos: nat, bs: seq<T>, d: nat)
    requires pos + |bs| <= |s| && d < |bs|
    ensures Write(s, pos, bs)[pos + d] == bs[d]
  {
    WriteBytes(s, pos, bs);
  }

  /** Reading back a value stored with `PutUint16` gives the value. */
  lemma {:induction false} ReadU16AfterWrite(s: seq<byte>, pos: nat, v: u16)
    requires pos + 2 <= |s|
    ensures ReadU16(Write(s, pos, Le16(v)), pos) == Ok(v)
  {
    WriteBytes(s, pos, Le16(v));
  }

  /** Reading back a value stored with `PutUint64` gives the value. */
  lemma {:induction false} ReadU64AfterWrite(s: seq<byte>, pos: nat, v: u64)
    requires pos + 8 <= |s|
    ensures ReadU64(Write(s, pos, Le64(v)), pos) == Ok(v)
  {
    LeValueOfLeBytes(v, 8);
    WriteInside(s, pos, Le64(v), pos, pos + 8);
    assert Le64(v)[0..8] == Le64(v);
  }

  /** A slice of a slice is a slice of the original. */
  lemma {:induction false} SliceOfSlice<T>(s: seq<T>, lo: nat, hi: nat, i: nat, j: nat)
    requires lo <= hi <= |s| && i <= j <= hi - lo
    ensures s[lo..hi][i..j] == s[lo + i..lo + j]
  {
    forall k | 0 <= k < j - i
      ensures s[lo..hi][i..j][k] == s[lo + i..lo + j][k]
    {
    }
  }

  /** Bytes outside the written window keep their values. */
  lemma {:induction false} WriteOutside<T>(s: seq<T>, pos: nat, bs: seq<T>, lo: nat, hi: nat)
    requires pos + |bs| <= |s| && lo <= hi <= |s|
    requires hi <= pos || pos + |bs| <= lo
    ensures Write(s, pos, bs)[lo..hi] == s[lo..hi]
  {
    var r := Write(s, pos, bs);
    forall k | 0 <= k < hi - lo
      ensures r[lo..hi][k] == s[lo..hi][k]
    {
      WriteAt(s, pos, bs, lo + k);
    }
  }

  /** Bytes inside the written window are the written ones. */
  lemma {:induction false} WriteInside<T>(s: seq<T>, pos: nat, bs: seq<T>, lo: nat, hi: nat)
    requires pos + |bs| <= |s| && pos <= lo <= hi <= pos + |bs|
    ensures Write(s, pos, bs)[lo..hi] == bs[lo - pos..hi - pos]
  {
    var r := Write(s, pos, bs);
    forall k | 0 <= k < hi - lo
      ensures r[lo..hi][k] == bs[lo - pos..hi - pos][k]
    {
      WriteInsideAt(s, pos, bs, lo - pos + k);
    }
  }

  /** The written window holds exactly the written bytes. */
  lemma {:induction false} WriteWhole<T>(s: seq<T>, pos: nat, bs: seq<T>)
    requires pos + |bs| <= |s|
    ensures Write(s, pos, bs)[pos..pos + |bs|] == bs
  {
    WriteInside(s, pos, bs, pos, pos + |bs|);
    assert bs[0..|bs|] == bs;
  }

  /** Two adjacent writes are one write of the concatenation. */
  lemma {:induction false} WriteConcat<T>(s: seq<T>, pos: nat, a: seq<T>, b: seq<T>)
    requires pos + |a| + |b| <= |s|
    ensures Write(Write(s, pos, a), pos + |a|, b) == Write(s, pos, a + b)
  {
    var l, r := Write(Write(s, pos, a), pos + |a|, b), Write(s, pos, a + b);
    forall k | 0 <= k < |s|
      ensures l[k] == r[k]
    {
      WriteAt(s, pos, a, k);
      WriteAt(Write(s, pos, a), pos + |a|, b, k);
      WriteAt(s, pos, a + b, k);
    }
  }

  /** Go's `copy(dst[pos:], src)` when `src` fits: no truncation. */
  method CopyAt(dst: array<byte>, pos: nat, src: seq<byte>)
    requires pos + |src| <= dst.Length
    modifies dst
    ensures dst[..] == Write(old(dst[..]), pos, src)
  {
    forall k | 0 <= k < |src| {
      dst[pos + k] := src[k];
    }
    WriteBytes(old(dst[..]), pos, src);
    assert forall k :: 0 <= k < dst.Length ==> dst[..][k] == Write(old(dst[..]), pos, src)[k];
  }

  /** `binary.LittleEndian.PutUint16(b[pos:], v)`. */
  method PutUint16(b: array<byte>, pos: nat, v: u16)
    requires pos + 2 <= b.Length
    modifies b
    ensures b[..] == Write(old(b[..]), pos, Le16(v))
  {
    CopyAt(b, pos, Le16(v));
  }

  /** `binary.LittleEndian.PutUint64(b[pos:], v)`. */
  method PutUint64(b: array<byte>, pos: nat, v: u64)
    requires pos + 8 <= b.Length
    modifies b
    ensures b[..] == Write(old(b[..]), pos, Le64(v))
  {
    CopyAt(b, pos, Le64(v));
  }
}
