/** The speed classifier `maxAvail`: the highest advertised download tier of a
    network segment. */
module Speed {
  import opened Frames

  /** The tiers, in the order the classifier tries them. */
  const Tiers: seq<int> := [50, 25, 10, 5]

  /** The availability flag that stands for a tier. */
  function Flag(row: Segment, tier: int): int
    requires tier in Tiers
  {
    if tier == 50 then row.avail50
    else if tier == 25 then row.avail25
    else if tier == 10 then row.avail10
    else row.avail5
  }

  /** The tier is offered: its flag compares equal to 1 (a flag of 2 does not). */
  predicate Offered(row: Segment, tier: int)
    requires tier in Tiers
  {
    Flag(row, tier) == 1
  }

  /** `maxAvail`: the highest tier whose flag equals 1, and 0 when there is none. */
  function MaxAvail(row: Segment): (r: int)
    ensures r == 0 || r == 5 || r == 10 || r == 25 || r == 50
    ensures r == 0 <==> forall t :: t in Tiers ==> !Offered(row, t)
    ensures r != 0 ==> r in Tiers && Offered(row, r)
    ensures r != 0 ==> forall t :: t in Tiers && Offered(row, t) ==> t <= r
  {
    if row.avail50 == 1 then assert Offered(row, 50); 50
    else if row.avail25 == 1 then assert Offered(row, 25); 25
    else if row.avail10 == 1 then assert Offered(row, 10); 10
    else if row.avail5 == 1 then assert Offered(row, 5); 5
    else 0
  }

  /** The `max_speed` column: `dfmap.apply(maxAvail, axis = 1)`. */
  function ClassifyAll(rows: seq<Segment>): (r: seq<int>)
    ensures |r| == |rows|
    ensures forall i :: 0 <= i < |rows| ==> r[i] == MaxAvail(rows[i])
  {
    seq(|rows|, i requires 0 <= i < |rows| => MaxAvail(rows[i]))
  }

  /** Every entry of a classified column is one of the five tiers. */
  lemma ClassifyAllInTiers(rows: seq<Segment>, i: int)
    requires 0 <= i < |rows|
    ensures ClassifyAll(rows)[i] in {0, 5, 10, 25, 50}
  {
  }
}
