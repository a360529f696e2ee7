/** Small vocabulary shared by every module of the model. */
module Base {

  datatype Option<+T> = None | Some(value: T)

  /** The sentinel errors of the store, as far as callers tell them apart. */
  datatype StoreError = NotFound | Conflict | Invalid

  datatype Outcome<+T> = Ok(value: T) | Err(error: StoreError)

  lemma SubsetCard(a: set<nat>, b: set<nat>)
    ensures a <= b ==> |a| <= |b|
  {
    if a <= b {
      assert b == a + (b - a);
    }
  }

  function UpTo(n: nat): (r: set<nat>)
    ensures |r| == n && forall i | i in r :: i < n
  {
    if n == 0 then {} else UpTo(n - 1) + {n - 1}
  }

  /** There is always a number nobody has used. */
  lemma Unused(used: set<nat>) returns (n: nat)
    ensures n !in used
  {
    SubsetCard(UpTo(|used| + 1), used);
    assert exists i :: i in UpTo(|used| + 1) && i !in used;
    n :| n !in used;
  }
}
