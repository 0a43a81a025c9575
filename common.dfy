/** Types shared by both pipeline variants, and the exact nearest-neighbour
    scan that both dialogue memories perform through their index libraries. */
module Common {

  datatype Option<T> = None | Some(value: T)

  /** A text embedding, as produced by the language model; opaque apart
      from distance computations. */
  type Embedding = seq<real>

  /** `j` is the position of a smallest distance in `ds`, and the earliest
      such position when several distances tie. */
  predicate IsNearest(ds: seq<real>, j: nat) {
    && j < |ds|
    && (forall k | 0 <= k < |ds| :: ds[j] <= ds[k])
    && (forall k | 0 <= k < j :: ds[j] < ds[k])
  }

  /** The one-nearest-neighbour query over precomputed distances, scanning
      every stored record. */
  method Nearest(ds: seq<real>) returns (j: nat)
    requires ds != []
    ensures IsNearest(ds, j)
  {
    j := 0;
    var k := 1;
    while k < |ds|
      invariant 1 <= k <= |ds| && j < k
      invariant forall m | 0 <= m < k :: ds[j] <= ds[m]
      invariant forall m | 0 <= m < j :: ds[j] < ds[m]
    {
      if ds[k] < ds[j] {
        j := k;
      }
      k := k + 1;
    }
  }

  /** At most one position is the nearest one, so a lookup with the same
      query over the same records always yields the same record. */
  lemma NearestUnique(ds: seq<real>, j1: nat, j2: nat)
    requires IsNearest(ds, j1) && IsNearest(ds, j2)
    ensures j1 == j2
  {
    var d1, d2 := ds[j1], ds[j2];
    assert d1 <= d2 && d2 <= d1;
  }

  /** The nearest distance clears a strict threshold exactly when some
      distance does. */
  lemma NearestBelow(ds: seq<real>, j: nat, threshold: real)
    requires IsNearest(ds, j)
    ensures ds[j] < threshold <==> exists k | 0 <= k < |ds| :: ds[k] < threshold
  {
    if k :| 0 <= k < |ds| && ds[k] < threshold {
      assert ds[j] <= ds[k];
    }
  }
}
