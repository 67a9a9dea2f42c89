/** The shape facts and the clamp of `makeInterpolation`. Grid cells are
    `Option<real>`; `None` is the no-data value griddata gives outside the
    convex hull of the samples. */
module Grid {
  import opened Wrappers

  /** The upper bound the clamp enforces. */
  const Cap: real := 50.0

  /** `Series.min()` of a non-empty column. */
  function Min(s: seq<real>): (r: real)
    requires |s| > 0
    ensures r in s
    ensures forall k :: 0 <= k < |s| ==> r <= s[k]
  {
    if |s| == 1 then s[0]
    else
      var m := Min(s[..|s| - 1]);
      assert s[..|s| - 1] + [s[|s| - 1]] == s;
      if s[|s| - 1] < m then s[|s| - 1] else m
  }

  /** `Series.max()` of a non-empty column. */
  function Max(s: seq<real>): (r: real)
    requires |s| > 0
    ensures r in s
    ensures forall k :: 0 <= k < |s| ==> s[k] <= r
  {
    if |s| == 1 then s[0]
    else
      var m := Max(s[..|s| - 1]);
      assert s[..|s| - 1] + [s[|s| - 1]] == s;
      if s[|s| - 1] > m then s[|s| - 1] else m
  }

  /** `np.linspace(lo, hi, n)`, in exact arithmetic: `n` evenly spaced
      samples whose first is `lo` and, when `n > 1`, whose last is `hi`. */
  function Linspace(lo: real, hi: real, n: nat): (r: seq<real>)
    ensures |r| == n
    ensures n > 0 ==> r[0] == lo
    ensures n > 1 ==> r[n - 1] == hi
  {
    if n == 1 then [lo]
    else
      var step := (hi - lo) / ((n - 1) as real);
      seq(n, k requires 0 <= k < n => if k == n - 1 then hi else lo + (k as real) * step)
  }

  /** The samples of `Linspace` stay between its end points. */
  lemma LinspaceBounded(lo: real, hi: real, n: nat, k: int)
    requires lo <= hi && 0 <= k < n
    ensures lo <= Linspace(lo, hi, n)[k] <= hi
  {
    if n > 1 && k < n - 1 {
      var step := (hi - lo) / ((n - 1) as real);
      assert 0.0 <= step;
      assert (k as real) * step <= ((n - 1) as real) * step;
      assert ((n - 1) as real) * step == hi - lo;
      assert Linspace(lo, hi, n)[k] == lo + (k as real) * step;
    }
  }

  /** One cell of `zi[zi > 50] = 50`: a value above the cap becomes the cap,
      any other value is kept, and a no-data cell stays no-data (it never
      compares greater than 50). */
  function ClampCell(c: Option<real>): (r: Option<real>)
    ensures r.None? <==> c.None?
    ensures r.Some? ==> r.value <= Cap
    ensures c.Some? && c.value <= Cap ==> r == c
    ensures c.Some? && c.value > Cap ==> r == Some(Cap)
  {
    match c
    case Some(v) => if v > Cap then Some(Cap) else c
    case None => None
  }

  /** Clamping twice is clamping once. */
  lemma ClampCellIdempotent(c: Option<real>)
    ensures ClampCell(ClampCell(c)) == ClampCell(c)
  {
  }

  /** `zi[zi > 50] = 50`, in place on the grid. */
  method ClampGrid(zi: array2<Option<real>>)
    modifies zi
    ensures forall i, j :: 0 <= i < zi.Length0 && 0 <= j < zi.Length1 ==>
              zi[i, j] == ClampCell(old(zi[i, j]))
  {
    for i := 0 to zi.Length0
      invariant forall p, q :: 0 <= p < i && 0 <= q < zi.Length1 ==>
                  zi[p, q] == ClampCell(old(zi[p, q]))
      invariant forall p, q :: i <= p < zi.Length0 && 0 <= q < zi.Length1 ==>
                  zi[p, q] == old(zi[p, q])
    {
      for j := 0 to zi.Length1
        invariant forall p, q :: 0 <= p < i && 0 <= q < zi.Length1 ==>
                    zi[p, q] == ClampCell(old(zi[p, q]))
        invariant forall q :: 0 <= q < j ==> zi[i, q] == ClampCell(old(zi[i, q]))
        invariant forall p, q :: i <= p < zi.Length0 && 0 <= q < zi.Length1 && (p > i || q >= j) ==>
                    zi[p, q] == old(zi[p, q])
      {
        if zi[i, j].Some? && zi[i, j].value > Cap {
          zi[i, j] := Some(Cap);
        }
      }
    }
  }
}
