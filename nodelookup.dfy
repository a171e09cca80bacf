/** nodeLookupLE: the floor search that picks the child or slot for a key. */
module NodeLookup {
  import opened GoSemantics
  import opened BytesCompare
  import opened NodeFormat
  import opened NodeAccess

  /**
   * Reference definition: the largest index i in [1, |keys|) whose key is at most
   * `probe`, or 0 when there is none. Key 0 is never consulted: it is the floor
   * every descent falls back to.
   */
  function Floor(keys: seq<seq<byte>>, probe: seq<byte>): (f: nat)
    ensures f == 0 || (1 <= f < |keys| && Compare(keys[f], probe) <= 0)
    ensures forall j :: 1 <= j < |keys| && f < j ==> Compare(keys[j], probe) > 0
  {
    LastAtMost(keys, probe, |keys|)
  }

  /** The largest index in [1, hi) whose key is at most `probe`, scanning down from hi - 1; 0 if none. */
  function LastAtMost(keys: seq<seq<byte>>, probe: seq<byte>, hi: nat): (f: nat)
    requires hi <= |keys|
    ensures f == 0 || (1 <= f < hi && Compare(keys[f], probe) <= 0)
    ensures forall j :: 1 <= j < hi && f < j ==> Compare(keys[j], probe) > 0
    decreases hi
  {
    if hi <= 1 then 0
    else if Compare(keys[hi - 1], probe) <= 0 then hi - 1
    else LastAtMost(keys, probe, hi - 1)
  }

  /** Key j of the node decodes and sorts strictly before `probe`. */
  predicate KeyBelow(node: seq<byte>, j: u16, probe: seq<byte>) {
    GetKey(node, j).Ok? && Compare(GetKey(node, j).value, probe) < 0
  }

  /**
   * What the scan of nodeLookupLE establishes when it returns f: f is 0 or a key
   * index past 0; every key it passed sorts before the probe; key f (if f > 0) is
   * at most the probe; and unless the scan stopped on an exact match, the key
   * after f (if any) sorts after the probe.
   */
  predicate ScanStopsAt(node: seq<byte>, probe: seq<byte>, f: nat)
    requires NKeys(node).Ok?
  {
    var n := NKeys(node).value;
    (f == 0 || 1 <= f < n) &&
    (forall j: u16 :: 1 <= j < f ==> KeyBelow(node, j, probe)) &&
    (f >= 1 ==> GetKey(node, f).Ok? && Compare(GetKey(node, f).value, probe) <= 0) &&
    (f + 1 < n && (f == 0 || Compare(GetKey(node, f).value, probe) < 0) ==>
       GetKey(node, f + 1).Ok? && Compare(GetKey(node, f + 1).value, probe) > 0)
  }

  /** Keys 1 .. i-1 of the node all decode and sort strictly before `probe`. */
  predicate AllBelow(node: seq<byte>, probe: seq<byte>, i: u16) {
    forall j: u16 :: 1 <= j < i ==> KeyBelow(node, j, probe)
  }

  /** The scan stops on key i because it equals the probe: the answer is i. */
  lemma {:induction false} StopOnMatch(node: seq<byte>, probe: seq<byte>, i: u16, k: seq<byte>)
    requires NKeys(node).Ok? && 1 <= i < NKeys(node).value && AllBelow(node, probe, i)
    requires GetKey(node, i) == Ok(k) && Compare(k, probe) == 0
    ensures ScanStopsAt(node, probe, i)
  {
  }

  /** The scan stops on key i because it sorts after the probe: the answer is i - 1. */
  lemma {:induction false} StopPastFloor(node: seq<byte>, probe: seq<byte>, i: u16, k: seq<byte>)
    requires NKeys(node).Ok? && 1 <= i < NKeys(node).value && AllBelow(node, probe, i)
    requires GetKey(node, i) == Ok(k) && Compare(k, probe) > 0
    ensures ScanStopsAt(node, probe, i - 1)
  {
    if i > 1 {
      assert KeyBelow(node, i - 1, probe);
    }
  }

  /** The scan runs past the last key: the answer is the last key index, or 0. */
  lemma {:induction false} ScanExhausted(node: seq<byte>, probe: seq<byte>, i: u16)
    requires NKeys(node).Ok? && 1 <= i && (i == NKeys(node).value || (i == 1 && NKeys(node).value <= 1))
    requires AllBelow(node, probe, i)
    ensures ScanStopsAt(node, probe, i - 1)
  {
    if i > 1 {
      assert KeyBelow(node, i - 1, probe);
    }
  }

  /** nodeLookupLE: scan keys 1 .. nkeys-1 upwards, remember the last one at most `key`, stop at the first one at least `key`. */
  method NodeLookupLE(node: seq<byte>, key: seq<byte>) returns (r: Result<u16>)
    ensures NKeys(node).Panic? ==> r.Panic?
    ensures r.Ok? ==> NKeys(node).Ok? && ScanStopsAt(node, key, r.value)
    ensures NKeys(node).Ok? && NKeys(node).value <= 1 ==> r == Ok(0)
    ensures NKeys(node).Ok? && (forall j: u16 :: 1 <= j < NKeys(node).value ==> GetKey(node, j).Ok?) ==> r.Ok?
    ensures r.Panic? ==> NKeys(node).Panic? || exists j: u16 :: 1 <= j < NKeys(node).value && GetKey(node, j).Panic?
  {
    var nk := NKeys(node);
    if nk.Panic? {
      return Panic(nk.fault);
    }
    var nkeys := nk.value;
    var found: u16 := 0;
    var i: u16 := 1;
    while i < nkeys
      invariant 1 <= i && (i <= nkeys || i == 1)
      invariant found == i - 1
      invariant AllBelow(node, key, i)
    {
      var k := GetKey(node, i);
      if k.Panic? {
        return Panic(k.fault);
      }
      var cmp := Compare(k.value, key);
      if cmp <= 0 {
        found := i;
      }
      if cmp >= 0 {
        if cmp == 0 {
          StopOnMatch(node, key, i, k.value);
        } else {
          StopPastFloor(node, key, i, k.value);
        }
        return Ok(found);
      }
      i := i + 1;
    }
    ScanExhausted(node, key, i);
    return Ok(found);
  }

  /** ScanStopsAt, stated on the decoded key sequence of a node. */
  predicate StopsAt(keys: seq<seq<byte>>, probe: seq<byte>, f: nat) {
    (f == 0 || 1 <= f < |keys|) &&
    (forall j :: 1 <= j < f ==> Compare(keys[j], probe) < 0) &&
    (f >= 1 ==> Compare(keys[f], probe) <= 0) &&
    (f + 1 < |keys| && (f == 0 || Compare(keys[f], probe) < 0) ==> Compare(keys[f + 1], probe) > 0)
  }

  lemma {:induction false} ScanStopsOnKeys(node: seq<byte>, keys: seq<seq<byte>>, probe: seq<byte>, f: nat)
    requires NKeys(node).Ok? && |keys| == NKeys(node).value
    requires forall j: u16 :: j < |keys| ==> GetKey(node, j) == Ok(keys[j])
    requires ScanStopsAt(node, probe, f)
    ensures StopsAt(keys, probe, f)
  {
    forall j | 1 <= j < f
      ensures Compare(keys[j], probe) < 0
    {
      assert KeyBelow(node, j, probe);
    }
  }

  /** The two properties of Floor's contract determine it. */
  lemma {:induction false} FloorUnique(keys: seq<seq<byte>>, probe: seq<byte>, f: nat)
    requires f == 0 || (1 <= f < |keys| && Compare(keys[f], probe) <= 0)
    requires forall j :: 1 <= j < |keys| && f < j ==> Compare(keys[j], probe) > 0
    ensures f == Floor(keys, probe)
  {
  }

  /** Over strictly increasing keys, where the scan stops is the floor index. */
  lemma {:induction false} StopsAtIsFloor(keys: seq<seq<byte>>, probe: seq<byte>, f: nat)
    requires StrictlyIncreasing(keys) && StopsAt(keys, probe, f)
    ensures f == Floor(keys, probe)
  {
    forall j | 1 <= j < |keys| && f < j
      ensures Compare(keys[j], probe) > 0
    {
      if f >= 1 && Compare(keys[f], probe) == 0 {
        CompareZeroIffEqual(keys[f], probe);
        CompareAntisymmetric(keys[f], keys[j]);
      } else if j > f + 1 {
        CompareAntisymmetric(keys[f + 1], probe);
        CompareTransitive(probe, keys[f + 1], keys[j]);
        CompareAntisymmetric(probe, keys[j]);
      }
    }
    FloorUnique(keys, probe, f);
  }

  /** On a node with strictly increasing keys, the answer of nodeLookupLE is the floor index. */
  lemma {:induction false} ScanIsFloor(node: seq<byte>, probe: seq<byte>, f: nat)
    requires WellFormed(node) && StrictlyIncreasing(Keys(node))
    requires NKeys(node).Ok? && ScanStopsAt(node, probe, f)
    ensures f == Floor(Keys(node), probe)
  {
    var keys := Keys(node);
    NbytesReads(node);
    forall j: u16 | j < |keys|
      ensures GetKey(node, j) == Ok(keys[j])
    {
      KeyReads(node, j);
    }
    ScanStopsOnKeys(node, keys, probe, f);
    StopsAtIsFloor(keys, probe, f);
  }

  /** An exact match at a slot past 0 is found at that slot. */
  lemma {:induction false} FloorOfPresentKey(keys: seq<seq<byte>>, i: nat)
    requires StrictlyIncreasing(keys) && 1 <= i < |keys|
    ensures Floor(keys, keys[i]) == i
  {
    CompareZeroIffEqual(keys[i], keys[i]);
    var g := Floor(keys, keys[i]);
    if g > i {
      CompareAntisymmetric(keys[i], keys[g]);
      assert false;
    }
  }

  /** The keys with `probe` placed right after its floor slot. */
  function InsertAfterFloor(keys: seq<seq<byte>>, probe: seq<byte>): (r: seq<seq<byte>>)
    requires |keys| >= 1
    ensures |r| == |keys| + 1
  {
    InsertAt(keys, Floor(keys, probe) + 1, probe)
  }

  /**
   * Inserting a new key right after its floor slot keeps the keys strictly
   * increasing, provided key 0 sorts before it (key 0 is the node's lower bound).
   */
  lemma {:induction false} InsertAfterFloorSorted(keys: seq<seq<byte>>, probe: seq<byte>)
    requires StrictlyIncreasing(keys) && |keys| >= 1
    requires Compare(keys[0], probe) < 0
    requires probe !in keys
    ensures StrictlyIncreasing(InsertAfterFloor(keys, probe))
  {
    var f := Floor(keys, probe);
    var r := InsertAfterFloor(keys, probe);
    assert Compare(keys[f], probe) < 0 by {
      if f > 0 {
        CompareZeroIffEqual(keys[f], probe);
      }
    }
    forall i | 0 <= i < |r| - 1
      ensures Compare(r[i], r[i + 1]) < 0
    {
      if i == f + 1 {
        CompareAntisymmetric(keys[f + 1], probe);
      }
    }
    AdjacentIncreasing(r);
  }
}
