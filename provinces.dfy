/** The pieces of `provincePlots` that do not draw: the distinct province
    names in first-appearance order (`Series.unique()`), the boundary rows of
    one province (`dfcan[dfcan['PRENAME'] == prov]`), and the arguments of the
    plot call each one gets. */
module Provinces {
  import opened Wrappers
  import opened Frames

  /** The arguments of one `makePlot` call. `box` is false when the caller
      leaves it as None. */
  datatype PlotRequest = PlotRequest(data: Option<PointFrame>, patch: seq<Boundary>,
                                     box: bool, title: Option<string>,
                                     file: Option<string>, save: bool)

  /** The `PRENAME` column. */
  function Names(rows: seq<Boundary>): (r: seq<string>)
    ensures |r| == |rows|
    ensures forall i :: 0 <= i < |rows| ==> r[i] == rows[i].prename
  {
    seq(|rows|, i requires 0 <= i < |rows| => rows[i].prename)
  }

  predicate NoDuplicates(s: seq<string>) {
    forall a, b :: 0 <= a < b < |s| ==> s[a] != s[b]
  }

  /** Position of the first occurrence of `x` in `s`. */
  function FirstIndex(s: seq<string>, x: string): (r: nat)
    requires x in s
    ensures r < |s| && s[r] == x
    ensures forall k :: 0 <= k < r ==> s[k] != x
  {
    if s[0] == x then 0 else 1 + FirstIndex(s[1..], x)
  }

  /** `unique()`: each value once, in the order of its first appearance. */
  function Unique(s: seq<string>): (r: seq<string>)
    ensures forall x :: x in r <==> x in s
    ensures NoDuplicates(r)
  {
    if s == [] then []
    else
      var n := |s| - 1;
      var p := Unique(s[..n]);
      assert s == s[..n] + [s[n]];
      if s[n] in p then p else p + [s[n]]
  }

  /** The first occurrence of a value of a prefix is the same in the whole. */
  lemma {:induction false} FirstIndexPrefix(s: seq<string>, n: nat, x: string)
    requires n <= |s| && x in s[..n]
    ensures FirstIndex(s, x) == FirstIndex(s[..n], x)
  {
    if s[0] != x {
      assert s[..n][1..] == s[1..][..n - 1];
      FirstIndexPrefix(s[1..], n - 1, x);
    }
  }

  /** `unique()` lists its values in the order of their first appearance. */
  lemma {:induction false} UniqueFirstAppearance(s: seq<string>, a: int, b: int)
    requires 0 <= a < b < |Unique(s)|
    ensures FirstIndex(s, Unique(s)[a]) < FirstIndex(s, Unique(s)[b])
  {
    var n := |s| - 1;
    var p := Unique(s[..n]);
    var x, y := Unique(s)[a], Unique(s)[b];
    assert x in p;
    FirstIndexPrefix(s, n, x);
    if b < |p| {
      assert y in p;
      UniqueFirstAppearance(s[..n], a, b);
      FirstIndexPrefix(s, n, y);
    } else {
      assert y == s[n] && y !in s[..n];
      assert FirstIndex(s, y) == n;
    }
  }

  /** `dfcan[dfcan['PRENAME'] == name]`: the rows with that name, in order. */
  function Select(rows: seq<Boundary>, name: string): (r: seq<Boundary>)
    ensures |r| <= |rows|
  {
    if rows == [] then []
    else
      var rest := Select(rows[1..], name);
      if rows[0].prename == name then [rows[0]] + rest else rest
  }

  /** The selection holds exactly the rows with that name, each as often as
      it occurs in the frame. */
  lemma {:induction false} SelectContents(rows: seq<Boundary>, name: string)
    ensures forall b :: b in Select(rows, name) <==> b in rows && b.prename == name
    ensures forall b :: multiset(Select(rows, name))[b] ==
                        if b.prename == name then multiset(rows)[b] else 0
  {
    if rows != [] {
      SelectContents(rows[1..], name);
      assert rows == [rows[0]] + rows[1..];
    }
  }

  /** The selection keeps the frame's row order: `idx` gives, for each
      selected row, its position in the frame; the positions increase, and
      every row with that name has one. */
  lemma {:induction false} SelectInOrder(rows: seq<Boundary>, name: string) returns (idx: seq<nat>)
    ensures Positions(rows, name, Select(rows, name), idx)
  {
    if rows == [] {
      idx := [];
    } else {
      var tail := SelectInOrder(rows[1..], name);
      var shifted := ShiftPositions(rows, name, tail);
      if rows[0].prename == name {
        idx := [0] + shifted;
        PrependPosition(rows, name, shifted);
      } else {
        idx := shifted;
        SkipPosition(rows, name, shifted);
      }
    }
  }

  /** A selected first row puts position 0 ahead of the tail's positions. */
  lemma PrependPosition(rows: seq<Boundary>, name: string, shifted: seq<nat>)
    requires rows != [] && rows[0].prename == name
    requires |shifted| == |Select(rows[1..], name)|
    requires forall k :: 0 <= k < |shifted| ==>
               0 < shifted[k] < |rows| && Select(rows[1..], name)[k] == rows[shifted[k]]
    requires forall a, b :: 0 <= a < b < |shifted| ==> shifted[a] < shifted[b]
    requires forall i :: 0 < i < |rows| && rows[i].prename == name ==> i in shifted
    ensures Positions(rows, name, Select(rows, name), [0] + shifted)
  {
    var idx, sel := [0] + shifted, Select(rows, name);
    assert sel == [rows[0]] + Select(rows[1..], name);
    forall k | 0 <= k < |idx| ensures idx[k] < |rows| && sel[k] == rows[idx[k]] {
      if k > 0 { assert idx[k] == shifted[k - 1]; }
    }
    forall i | 0 <= i < |rows| && rows[i].prename == name ensures i in idx {
      if i > 0 { assert i in shifted; }
    }
  }

  /** A first row that is not selected adds no position. */
  lemma SkipPosition(rows: seq<Boundary>, name: string, shifted: seq<nat>)
    requires rows != [] && rows[0].prename != name
    requires |shifted| == |Select(rows[1..], name)|
    requires forall k :: 0 <= k < |shifted| ==>
               0 < shifted[k] < |rows| && Select(rows[1..], name)[k] == rows[shifted[k]]
    requires forall a, b :: 0 <= a < b < |shifted| ==> shifted[a] < shifted[b]
    requires forall i :: 0 < i < |rows| && rows[i].prename == name ==> i in shifted
    ensures Positions(rows, name, Select(rows, name), shifted)
  {
    assert Select(rows, name) == Select(rows[1..], name);
  }

  /** `idx` lists, in increasing order, the positions in `rows` of the
      entries of `sel`, and holds every position of a row named `name`. */
  ghost predicate Positions(rows: seq<Boundary>, name: string, sel: seq<Boundary>, idx: seq<nat>) {
    |idx| == |sel| &&
    (forall k :: 0 <= k < |idx| ==> idx[k] < |rows| && sel[k] == rows[idx[k]]) &&
    (forall a, b :: 0 <= a < b < |idx| ==> idx[a] < idx[b]) &&
    (forall i :: 0 <= i < |rows| && rows[i].prename == name ==> i in idx)
  }

  /** Positions in the frame's tail, shifted by one, are positions in the
      frame that skip its first row. */
  lemma ShiftPositions(rows: seq<Boundary>, name: string, tail: seq<nat>) returns (shifted: seq<nat>)
    requires rows != [] && Positions(rows[1..], name, Select(rows[1..], name), tail)
    ensures |shifted| == |tail|
    ensures forall k :: 0 <= k < |shifted| ==>
              0 < shifted[k] < |rows| && Select(rows[1..], name)[k] == rows[shifted[k]]
    ensures forall a, b :: 0 <= a < b < |shifted| ==> shifted[a] < shifted[b]
    ensures forall i :: 0 < i < |rows| && rows[i].prename == name ==> i in shifted
  {
    shifted := seq(|tail|, k requires 0 <= k < |tail| => tail[k] + 1);
    forall i | 0 < i < |rows| && rows[i].prename == name
      ensures i in shifted
    {
      assert rows[1..][i - 1] == rows[i];
      var k :| 0 <= k < |tail| && tail[k] == i - 1;
      assert shifted[k] == i;
    }
  }

  /** A name taken from the column selects at least one row. */
  lemma {:induction false} SelectNonEmpty(rows: seq<Boundary>, name: string)
    requires name in Names(rows)
    ensures |Select(rows, name)| > 0
  {
    var i :| 0 <= i < |rows| && Names(rows)[i] == name;
    SelectContents(rows, name);
    assert rows[i] in Select(rows, name);
  }
}
