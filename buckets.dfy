// The age bucketing of the strategy page: `pd.cut` with right-closed bins
// over fixed edges, each bin carrying a label.
module Buckets {
  import opened Records
  import opened Order

  ghost predicate Increasing(edges: seq<real>)
  {
    forall i, j :: 0 <= i < j < |edges| ==> edges[i] < edges[j]
  }

  /** `pd.cut(x, bins=edges)`: the index i of the bin (edges[i], edges[i+1]]
      holding x, or `None` (a missing category) when x lies at or below the
      first edge or above the last. */
  function Bin(edges: seq<real>, x: real): (r: Option<nat>)
    requires Increasing(edges)
    ensures r.Some? ==> r.value + 1 < |edges| && edges[r.value] < x <= edges[r.value + 1]
    ensures r.None? <==> |edges| < 2 || x <= edges[0] || x > edges[|edges| - 1]
  {
    if |edges| < 2 then None
    else if edges[0] < x <= edges[1] then Some(0)
    else
      match Bin(edges[1..], x)
      case Some(i) => Some(i + 1)
      case None => None
  }

  /** Right-closed bins over increasing edges do not overlap: x lies in
      exactly one of them, the one `Bin` returns. */
  lemma BinUnique(edges: seq<real>, x: real, i: nat)
    requires Increasing(edges)
    requires i + 1 < |edges| && edges[i] < x <= edges[i + 1]
    ensures Bin(edges, x) == Some(i)
  {
    var r := Bin(edges, x);
    var k := r.value;
    assert edges[i] < edges[k + 1] && edges[k] < edges[i + 1];
  }

  /** A larger value never falls into an earlier bin. */
  lemma BinMonotone(edges: seq<real>, x: real, y: real)
    requires Increasing(edges)
    requires x <= y && Bin(edges, x).Some? && Bin(edges, y).Some?
    ensures Bin(edges, x).value <= Bin(edges, y).value
  {
    var i, j := Bin(edges, x).value, Bin(edges, y).value;
    assert edges[i] < edges[j + 1];
  }

  const AgeEdges: seq<real> := [0.0, 25.0, 35.0, 45.0, 55.0, 100.0]
  const AgeLabels: seq<string> := ["18-25", "26-35", "36-45", "46-55", "55+"]

  lemma AgeEdgesIncreasing()
    ensures Increasing(AgeEdges)
  {
  }

  /** The age group of a client age; `None` outside (0, 100]. */
  function AgeGroup(age: real): (g: Option<string>)
    ensures g.Some? <==> 0.0 < age <= 100.0
    ensures g.Some? ==> exists i :: 0 <= i < |AgeLabels| && g.value == AgeLabels[i] &&
                                   AgeEdges[i] < age <= AgeEdges[i + 1]
  {
    AgeEdgesIncreasing();
    match Bin(AgeEdges, age)
    case Some(i) => Some(AgeLabels[i])
    case None => None
  }

  /** The labels ascend in string order, so ordering the age groups by
      label is ordering them by age. */
  lemma {:induction false} AgeLabelsAscending(i: nat, j: nat)
    requires i < j < |AgeLabels|
    ensures StringLess(AgeLabels[i], AgeLabels[j])
  {
    assert AgeLabels[i][0] < AgeLabels[j][0];
  }

  /** An older client never gets an earlier age group. */
  lemma AgeGroupMonotone(a: real, b: real)
    requires 0.0 < a <= b <= 100.0
    ensures AgeGroup(a) == AgeGroup(b) || StringLess(AgeGroup(a).value, AgeGroup(b).value)
  {
    AgeEdgesIncreasing();
    BinMonotone(AgeEdges, a, b);
    var i, j := Bin(AgeEdges, a).value, Bin(AgeEdges, b).value;
    if i < j {
      AgeLabelsAscending(i, j);
    }
  }

  /** The bin edges themselves: 25 is the top of the first group and 26
      is in the second. */
  lemma AgeGroupEdges()
    ensures AgeGroup(25.0) == Some("18-25")
    ensures AgeGroup(26.0) == Some("26-35")
    ensures AgeGroup(100.0) == Some("55+")
    ensures AgeGroup(0.0) == None && AgeGroup(100.5) == None
  {
    AgeEdgesIncreasing();
    BinUnique(AgeEdges, 25.0, 0);
    BinUnique(AgeEdges, 26.0, 1);
    BinUnique(AgeEdges, 100.0, 4);
  }
}
