/** The element count of a tensor shape, without overflow. */
module Volume {
  import opened Results
  import opened Metrics

  const MAX_SIZE: int := 0xFFFF_FFFF_FFFF_FFFF

  /** A shape: the number of dimensions, and at least that many extents. */
  datatype Dims = Dims(count: int, extents: seq<int>) {
    predicate Valid() {
      count <= |extents|
    }

    /** The extents in use. */
    function Used(): seq<int>
      requires Valid()
    {
      if count <= 0 then [] else extents[..count]
    }
  }

  predicate AllPositive(s: seq<int>) {
    forall i :: 0 <= i < |s| ==> s[i] > 0
  }

  /** The true, unbounded product. */
  function Product(s: seq<int>): int {
    if s == [] then 1 else Product(s[..|s| - 1]) * s[|s| - 1]
  }

  lemma {:induction false} ProductPositive(s: seq<int>)
    requires AllPositive(s)
    ensures Product(s) >= 1
    decreases |s|
  {
    if s != [] {
      ProductPositive(s[..|s| - 1]);
      MultiplyUp(Product(s[..|s| - 1]), s[|s| - 1]);
    }
  }

  lemma MultiplyUp(a: int, b: int)
    requires a >= 1 && b >= 1
    ensures a * b >= a
  {
  }

  /** More dimensions never shrink the product. */
  lemma {:induction false} ProductGrows(s: seq<int>, k: nat)
    requires AllPositive(s) && k <= |s|
    ensures Product(s[..k]) <= Product(s)
    decreases |s|
  {
    if k < |s| {
      var t := s[..|s| - 1];
      ProductGrows(t, k);
      assert t[..k] == s[..k];
      ProductPositive(t);
      MultiplyUp(Product(t), s[|s| - 1]);
    } else {
      assert s[..k] == s;
    }
  }

  /** The guard before each multiplication is exact. */
  lemma GuardExact(a: int, b: int)
    requires a >= 0 && b > 0
    ensures a > MAX_SIZE / b <==> a * b > MAX_SIZE
  {
    var q := MAX_SIZE / b;
    assert q * b <= MAX_SIZE < (q + 1) * b;
    if a > q {
      Compare(q + 1, a, b);
    } else {
      Compare(a, q, b);
    }
  }

  lemma Compare(a: int, c: int, b: int)
    requires a <= c && b >= 0
    ensures a * b <= c * b
  {
  }

  /**
   A volume exactly when there is a dimension, all are positive and the true product fits; then it is
   that product. No intermediate result leaves the range of the result type.
   */
  method CheckedVolume(dims: Dims) returns (r: Option<Size>)
    requires dims.Valid()
    ensures r.Some? <==> dims.count > 0 && AllPositive(dims.Used()) && Product(dims.Used()) <= MAX_SIZE
    ensures r.Some? ==> r.value == Product(dims.Used()) < 0x1_0000_0000_0000_0000
    ensures MAX_SIZE == 0x1_0000_0000_0000_0000 - 1
  {
    if dims.count <= 0 {
      return None;
    }
    var used := dims.Used();
    var result: Size := 1;
    assert used[..0] == [];
    for i := 0 to dims.count
      invariant AllPositive(used[..i]) && result == Product(used[..i])
    {
      var extent := dims.extents[i];
      assert extent == used[i];
      if extent <= 0 {
        return None;
      }
      assert used[..i + 1][..i] == used[..i];
      GuardExact(result, extent);
      if result > MAX_SIZE / extent {
        if AllPositive(used) {
          ProductGrows(used, i + 1);
        }
        return None;
      }
      result := result * extent;
    }
    assert used[..dims.count] == used;
    return Some(result);
  }
}
