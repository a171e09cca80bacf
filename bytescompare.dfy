/** `bytes.Compare`: the byte-lexicographic order on byte strings. */
module BytesCompare {
  import opened GoSemantics

  /** -1, 0 or 1 as `a` sorts before, equal to, or after `b`; a proper prefix sorts first. */
  function Compare(a: seq<byte>, b: seq<byte>): (c: int)
    ensures -1 <= c <= 1
  {
    if |a| == 0 then (if |b| == 0 then 0 else -1)
    else if |b| == 0 then 1
    else if a[0] < b[0] then -1
    else if a[0] > b[0] then 1
    else Compare(a[1..], b[1..])
  }

  lemma {:induction false} CompareZeroIffEqual(a: seq<byte>, b: seq<byte>)
    ensures Compare(a, b) == 0 <==> a == b
  {
    if |a| > 0 && |b| > 0 && a[0] == b[0] {
      CompareZeroIffEqual(a[1..], b[1..]);
      if a[1..] == b[1..] {
        assert a == [a[0]] + a[1..] && b == [b[0]] + b[1..];
      }
    }
  }

  lemma {:induction false} CompareAntisymmetric(a: seq<byte>, b: seq<byte>)
    ensures Compare(a, b) == -Compare(b, a)
  {
    if |a| > 0 && |b| > 0 && a[0] == b[0] {
      CompareAntisymmetric(a[1..], b[1..]);
    }
  }

  lemma {:induction false} CompareTransitive(a: seq<byte>, b: seq<byte>, c: seq<byte>)
    requires Compare(a, b) <= 0 && Compare(b, c) <= 0
    ensures Compare(a, c) <= 0
    ensures Compare(a, b) < 0 || Compare(b, c) < 0 ==> Compare(a, c) < 0
  {
    if |a| > 0 && |b| > 0 && |c| > 0 && a[0] == b[0] == c[0] {
      CompareTransitive(a[1..], b[1..], c[1..]);
    }
  }

  /** Keys in strictly increasing byte order, as a node keeps them. */
  predicate StrictlyIncreasing(keys: seq<seq<byte>>) {
    forall i, j :: 0 <= i < j < |keys| ==> Compare(keys[i], keys[j]) < 0
  }

  /** Adjacent order suffices for strict increase. */
  lemma {:induction false} AdjacentIncreasing(keys: seq<seq<byte>>)
    requires forall i :: 0 <= i < |keys| - 1 ==> Compare(keys[i], keys[i + 1]) < 0
    ensures StrictlyIncreasing(keys)
  {
    if |keys| > 1 {
      AdjacentIncreasing(keys[1..]);
      forall j | 1 < j < |keys|
        ensures Compare(keys[0], keys[j]) < 0
      {
        assert Compare(keys[1], keys[j]) < 0 by { assert keys[1..][0] == keys[1] && keys[1..][j - 1] == keys[j]; }
        CompareTransitive(keys[0], keys[1], keys[j]);
      }
      forall i, j | 0 <= i < j < |keys|
        ensures Compare(keys[i], keys[j]) < 0
      {
        if i > 0 {
          assert keys[1..][i - 1] == keys[i] && keys[1..][j - 1] == keys[j];
        }
      }
    }
  }
}
