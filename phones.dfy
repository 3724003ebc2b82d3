/** Expansion of the phone-split alignment into one phone per frame
    (online-vad.cc, lines 100-107): each group of transition ids becomes as many
    copies of its phone as the group has frames. */
module Phones {

  /** `n` copies of `x`. */
  function Repeat(x: int, n: nat): (r: seq<int>)
    ensures |r| == n && forall k :: 0 <= k < n ==> r[k] == x
  {
    if n == 0 then [] else Repeat(x, n - 1) + [x]
  }

  /** The transition ids of all groups, in order: the alignment slice the groups
      were split from. */
  function Flatten(groups: seq<seq<int>>): seq<int> {
    if groups == [] then [] else Flatten(groups[..|groups| - 1]) + groups[|groups| - 1]
  }

  ghost predicate NonEmptyGroups(groups: seq<seq<int>>) {
    forall i :: 0 <= i < |groups| ==> groups[i] != []
  }

  /** The per-frame phone list: group `i` contributes `|groups[i]|` copies of the
      phone of its first transition id. */
  function Expanded(groups: seq<seq<int>>, phoneOf: int -> int): seq<int>
    requires NonEmptyGroups(groups)
  {
    if groups == [] then []
    else
      var last := groups[|groups| - 1];
      Expanded(groups[..|groups| - 1], phoneOf) + Repeat(phoneOf(last[0]), |last|)
  }

  /** The phone list has one entry per frame of the alignment slice. */
  lemma {:induction false} ExpandedLength(groups: seq<seq<int>>, phoneOf: int -> int)
    requires NonEmptyGroups(groups)
    ensures |Expanded(groups, phoneOf)| == |Flatten(groups)|
  {
    if groups != [] {
      ExpandedLength(groups[..|groups| - 1], phoneOf);
    }
  }

  /** Expansion works group by group: expanding two runs of groups one after the
      other gives the concatenation of their expansions. */
  lemma {:induction false} ExpandedAppend(g1: seq<seq<int>>, g2: seq<seq<int>>, phoneOf: int -> int)
    requires NonEmptyGroups(g1) && NonEmptyGroups(g2)
    ensures NonEmptyGroups(g1 + g2)
    ensures Expanded(g1 + g2, phoneOf) == Expanded(g1, phoneOf) + Expanded(g2, phoneOf)
  {
    if g2 != [] {
      var g2init := g2[..|g2| - 1];
      assert (g1 + g2)[..|g1 + g2| - 1] == g1 + g2init;
      ExpandedAppend(g1, g2init, phoneOf);
    } else {
      assert g1 + g2 == g1;
    }
  }

  /** Every frame of the alignment slice is labelled with the phone of the group it
      belongs to: a frame inside group `i` gets the phone of that group's first
      transition id. */
  lemma {:induction false} ExpandedAtGroup(groups: seq<seq<int>>, phoneOf: int -> int, i: nat, j: nat)
    requires NonEmptyGroups(groups) && i < |groups| && j < |groups[i]|
    ensures |Flatten(groups[..i])| + j < |Expanded(groups, phoneOf)|
    ensures Expanded(groups, phoneOf)[|Flatten(groups[..i])| + j] == phoneOf(groups[i][0])
  {
    var n := |groups|;
    var init := groups[..n - 1];
    ExpandedLength(groups, phoneOf);
    ExpandedLength(init, phoneOf);
    if i == n - 1 {
      assert groups[..i] == init;
    } else {
      ExpandedAtGroup(init, phoneOf, i, j);
      assert init[..i] == groups[..i];
      FlattenPrefixLength(groups, i);
    }
  }

  lemma {:induction false} FlattenPrefixLength(groups: seq<seq<int>>, i: nat)
    requires i < |groups|
    ensures |Flatten(groups[..i])| + |groups[i]| <= |Flatten(groups)|
  {
    var n := |groups|;
    if i < n - 1 {
      FlattenPrefixLength(groups[..n - 1], i);
      assert groups[..n - 1][..i] == groups[..i];
    } else {
      assert groups[..n][..i] == groups[..i];
    }
  }

  /** The loop of lines 100-107: for each group, push its phone once per frame. */
  method ExpandPhones(groups: seq<seq<int>>, phoneOf: int -> int) returns (phones: seq<int>)
    requires NonEmptyGroups(groups)
    ensures phones == Expanded(groups, phoneOf)
  {
    phones := [];
    var i := 0;
    while i < |groups|
      invariant 0 <= i <= |groups|
      invariant phones == Expanded(groups[..i], phoneOf)
    {
      var phone := phoneOf(groups[i][0]);
      var numRepeats := |groups[i]|;
      ghost var start := phones;
      var j := 0;
      while j < numRepeats
        invariant 0 <= j <= numRepeats
        invariant phones == start + Repeat(phone, j)
      {
        phones := phones + [phone];
        j := j + 1;
      }
      assert groups[..i + 1][..i] == groups[..i];
      i := i + 1;
    }
    assert groups[..|groups|] == groups;
  }
}
