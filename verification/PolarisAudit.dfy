/** Summaries of pods, controllers and whole audits, merged from those of their
    result sets (pkg/polaris/validator/summary.go). */
module PolarisAudit {
  import opened Common
  import opened PolarisSummary

  datatype PodResult = PodResult(results: ResultSet, containers: seq<ResultSet>)

  datatype ControllerResult = ControllerResult(results: ResultSet, pod: PodResult)

  function PodSets(pod: PodResult): seq<ResultSet> {
    [pod.results] + pod.containers
  }

  function ControllerSets(c: ControllerResult): seq<ResultSet> {
    [c.results] + PodSets(c.pod)
  }

  function AuditSets(cs: seq<ControllerResult>): seq<ResultSet> {
    if cs == [] then [] else AuditSets(cs[..|cs| - 1]) + ControllerSets(cs[|cs| - 1])
  }

  /** Every result set of every controller, its pod and the containers of its pod,
      and no other. */
  lemma {:induction false} AuditSetsAre(cs: seq<ControllerResult>, rs: ResultSet)
    ensures rs in AuditSets(cs) <==>
              exists i :: 0 <= i < |cs| && (rs == cs[i].results || rs == cs[i].pod.results || rs in cs[i].pod.containers)
  {
    if cs != [] {
      var n := |cs| - 1;
      AuditSetsAre(cs[..n], rs);
      assert forall i :: 0 <= i < n ==> cs[..n][i] == cs[i];
      assert rs in ControllerSets(cs[n]) <==> rs == cs[n].results || rs == cs[n].pod.results || rs in cs[n].pod.containers;
      if i :| 0 <= i < n && (rs == cs[i].results || rs == cs[i].pod.results || rs in cs[i].pod.containers) {
        assert cs[..n][i] == cs[i];
      }
    }
  }

  // The truth about several result sets.

  ghost function Truth(sets: seq<ResultSet>, category: string): Counts {
    if sets == [] then ZERO
    else Truth(sets[..|sets| - 1], category).Plus(TalliedIn(sets[|sets| - 1], sets[|sets| - 1].Keys, category))
  }

  ghost predicate InOneSet(sets: seq<ResultSet>, category: string) {
    forall i, j :: 0 <= i < j < |sets| ==> InCategory(sets[i], category) == {} || InCategory(sets[j], category) == {}
  }

  /** Two lists related element by element. */
  ghost predicate Pairwise<A, B>(rel: (A, B) -> bool, a: seq<A>, b: seq<B>) {
    |a| == |b| && forall i :: 0 <= i < |a| ==> rel(a[i], b[i])
  }

  lemma PairwiseConcat<A, B>(rel: (A, B) -> bool, a: seq<A>, b: seq<B>, a': seq<A>, b': seq<B>)
    requires Pairwise(rel, a, b) && Pairwise(rel, a', b')
    ensures Pairwise(rel, a + a', b + b')
  {
  }

  lemma PairwiseFront<A, B>(rel: (A, B) -> bool, a: seq<A>, b: seq<B>)
    requires Pairwise(rel, a, b) && a != []
    ensures var n := |a| - 1; Pairwise(rel, a[..n], b[..n]) && rel(a[n], b[n])
  {
  }

  lemma PairwiseOne<A, B>(rel: (A, B) -> bool, a: A, b: B)
    requires rel(a, b)
    ensures Pairwise(rel, [a], [b])
  {
  }

  /** The leaves are the summaries of the sets, and the tally is merged from them. */
  ghost predicate MergedFrom(tally: Tally, leaves: seq<Tally>, sets: seq<ResultSet>) {
    Pairwise(Exact, leaves, sets) && Summarises(tally, leaves)
  }

  /** A merged summary by category never counts too little, and counts a category
      right exactly when it occurs in at most one of the result sets. */
  lemma CategoryIsRightIff(tally: Tally, leaves: seq<Tally>, sets: seq<ResultSet>, c: string)
    requires MergedFrom(tally, leaves, sets)
    ensures Truth(sets, c).AtMost(At(tally, c))
    ensures At(tally, c) == Truth(sets, c) <==> InOneSet(sets, c)
  {
    assert SummarisesAt(tally, leaves, c);
    SumIsTruth(leaves, sets, c);
    OneSetIff(leaves, sets, c);
    SameSize(Truth(sets, c), At(tally, c));
  }

  lemma OneSetIff(leaves: seq<Tally>, sets: seq<ResultSet>, c: string)
    requires Pairwise(Exact, leaves, sets)
    ensures AtMostOne(leaves, c) <==> InOneSet(sets, c)
  {
    AtMostOneIff(leaves, c);
    forall i | 0 <= i < |sets| ensures c in leaves[i] <==> InCategory(sets[i], c) != {} {
      assert Exact(leaves[i], sets[i]);
      PresentIff(leaves[i], sets[i], c);
    }
  }

  /** No category is counted too little, and exactly those are counted right that
      occur in at most one of the sets. */
  ghost predicate CountedOver(tally: Tally, sets: seq<ResultSet>) {
    forall c :: Truth(sets, c).AtMost(At(tally, c)) && (At(tally, c) == Truth(sets, c) <==> InOneSet(sets, c))
  }

  lemma MergedIsCounted(tally: Tally, leaves: seq<Tally>, sets: seq<ResultSet>)
    requires MergedFrom(tally, leaves, sets)
    ensures CountedOver(tally, sets)
  {
    forall c ensures Truth(sets, c).AtMost(At(tally, c)) && (At(tally, c) == Truth(sets, c) <==> InOneSet(sets, c)) {
      CategoryIsRightIff(tally, leaves, sets, c);
    }
  }

  /** A pod with one result each in two sets, of one category: the summary is
      never right. */
  lemma SharedCategoryIsWrong(first: ResultMessage, second: ResultMessage, tally: Tally, leaves: seq<Tally>)
    requires first.category == second.category
    requires MergedFrom(tally, leaves, [map["first" := first], map["second" := second]])
    ensures At(tally, first.category) != Truth([map["first" := first], map["second" := second]], first.category)
  {
    var c, a, b := first.category, map["first" := first], map["second" := second];
    assert "first" in InCategory(a, c) && "second" in InCategory(b, c);
    assert [a, b][0] == a && [a, b][1] == b;
    CategoryIsRightIff(tally, leaves, [a, b], c);
  }

  lemma SameSize(a: Counts, b: Counts)
    requires a.AtMost(b)
    ensures a.Size() == b.Size() <==> a == b
  {
  }

  lemma {:induction false} SumIsTruth(leaves: seq<Tally>, sets: seq<ResultSet>, c: string)
    requires Pairwise(Exact, leaves, sets)
    ensures Sum(leaves, c) == Truth(sets, c)
  {
    if sets != [] {
      var n := |sets| - 1;
      SumIsTruth(leaves[..n], sets[..n], c);
      assert Exact(leaves[n], sets[n]);
    }
  }

  // By category.

  /** GetSummaryByCategory of a pod. */
  method PodSummaryByCategory(pod: PodResult) returns (tally: Tally, ghost leaves: seq<Tally>)
    ensures CountedOver(tally, PodSets(pod)) && MergedFrom(tally, leaves, PodSets(pod))
  {
    tally, leaves := LeafSummary(pod.results);
    ghost var sets := [pod.results];
    for i := 0 to |pod.containers|
      invariant sets == PodSets(pod)[..i + 1]
      invariant MergedFrom(tally, leaves, sets)
    {
      var other, one := LeafSummary(pod.containers[i]);
      tally, leaves := Merge(tally, other, leaves, sets, one, [pod.containers[i]]);
      sets := sets + [pod.containers[i]];
    }
    Whole(PodSets(pod), |pod.containers| + 1);
    MergedIsCounted(tally, leaves, PodSets(pod));
  }

  lemma Whole<T>(s: seq<T>, n: nat)
    requires n == |s|
    ensures s[..n] == s
  {
  }

  method LeafSummary(rs: ResultSet) returns (tally: Tally, ghost leaves: seq<Tally>)
    ensures MergedFrom(tally, leaves, [rs])
  {
    tally := GetSummaryByCategory(rs);
    leaves := [tally];
    PairwiseOne(Exact, tally, rs);
    LeafSummarises(tally, leaves);
  }

  method Merge(tally: Tally, other: Tally, ghost leaves: seq<Tally>, ghost sets: seq<ResultSet>,
               ghost leaves': seq<Tally>, ghost sets': seq<ResultSet>)
    returns (merged: Tally, ghost all: seq<Tally>)
    requires MergedFrom(tally, leaves, sets) && MergedFrom(other, leaves', sets')
    ensures MergedFrom(merged, all, sets + sets')
  {
    var summaries := new Summaries(tally);
    summaries.AddSummary(other);
    merged, all := summaries.tally, leaves + leaves';
    PairwiseConcat(Exact, leaves, sets, leaves', sets');
    MergedSummarises(tally, leaves, other, leaves');
  }

  /** GetSummaryByCategory of a controller. */
  method ControllerSummaryByCategory(c: ControllerResult) returns (tally: Tally, ghost leaves: seq<Tally>)
    ensures CountedOver(tally, ControllerSets(c)) && MergedFrom(tally, leaves, ControllerSets(c))
  {
    tally, leaves := LeafSummary(c.results);
    var other, more := PodSummaryByCategory(c.pod);
    tally, leaves := Merge(tally, other, leaves, [c.results], more, PodSets(c.pod));
    MergedIsCounted(tally, leaves, ControllerSets(c));
  }

  /** GetSummaryByCategory of an audit. */
  method AuditSummaryByCategory(cs: seq<ControllerResult>) returns (tally: Tally, ghost leaves: seq<Tally>)
    ensures CountedOver(tally, AuditSets(cs)) && MergedFrom(tally, leaves, AuditSets(cs))
  {
    tally, leaves := map[], [];
    for i := 0 to |cs|
      invariant MergedFrom(tally, leaves, AuditSets(cs[..i]))
    {
      var other, more := ControllerSummaryByCategory(cs[i]);
      tally, leaves := Merge(tally, other, leaves, AuditSets(cs[..i]), more, ControllerSets(cs[i]));
      assert cs[..i + 1][..i] == cs[..i];
    }
    assert cs[..|cs|] == cs;
    MergedIsCounted(tally, leaves, AuditSets(cs));
  }

  // Flat.

  /** The sum of a counter over all results. */
  ghost function FlatTruth(sets: seq<ResultSet>, counter: Counter): int {
    if sets == [] then 0
    else FlatTruth(sets[..|sets| - 1], counter) + Read(Tallied(sets[|sets| - 1], sets[|sets| - 1].Keys), counter)
  }

  ghost predicate FlatIs(cs: Counts, sets: seq<ResultSet>) {
    forall counter :: Read(cs, counter) == FlatTruth(sets, counter)
  }

  lemma {:induction false} FlatTruthConcat(a: seq<ResultSet>, b: seq<ResultSet>, counter: Counter)
    ensures FlatTruth(a + b, counter) == FlatTruth(a, counter) + FlatTruth(b, counter)
  {
    if b == [] {
      Append(a, b);
    } else {
      var n := |b| - 1;
      FlatTruthConcat(a, b[..n], counter);
      FrontOfConcat(a, b);
    }
  }

  lemma Append<T>(a: seq<T>, b: seq<T>)
    requires b == []
    ensures a + b == a
  {
  }

  lemma FrontOfConcat<T>(a: seq<T>, b: seq<T>)
    requires b != []
    ensures (a + b)[..|a + b| - 1] == a + b[..|b| - 1] && (a + b)[|a + b| - 1] == b[|b| - 1]
  {
  }

  lemma PlusIsFlat(cs: Counts, sets: seq<ResultSet>, other: Counts, sets': seq<ResultSet>)
    requires FlatIs(cs, sets) && FlatIs(other, sets')
    ensures FlatIs(cs.Plus(other), sets + sets')
  {
    forall counter ensures Read(cs.Plus(other), counter) == FlatTruth(sets + sets', counter) {
      FlatTruthConcat(sets, sets', counter);
      assert Read(cs, counter) == FlatTruth(sets, counter) && Read(other, counter) == FlatTruth(sets', counter);
    }
  }

  method FlatSet(rs: ResultSet) returns (cs: Counts)
    ensures FlatIs(cs, [rs])
  {
    cs := GetSummary(rs);
    OneSetIsFlat(cs, [rs]);
  }

  lemma OneSetIsFlat(cs: Counts, sets: seq<ResultSet>)
    requires |sets| == 1 && cs == Tallied(sets[0], sets[0].Keys)
    ensures FlatIs(cs, sets)
  {
    forall counter ensures FlatTruth(sets, counter) == Read(cs, counter) {
      assert FlatTruth(sets[..|sets| - 1], counter) == 0;
    }
  }

  /** GetSummary of a pod: every result is counted once. */
  method PodSummary(pod: PodResult) returns (cs: Counts)
    ensures FlatIs(cs, PodSets(pod))
  {
    cs := FlatSet(pod.results);
    ghost var sets := [pod.results];
    for i := 0 to |pod.containers|
      invariant sets == PodSets(pod)[..i + 1]
      invariant FlatIs(cs, sets)
    {
      var other := FlatSet(pod.containers[i]);
      PlusIsFlat(cs, sets, other, [pod.containers[i]]);
      cs, sets := cs.Plus(other), sets + [pod.containers[i]];
    }
    Whole(PodSets(pod), |pod.containers| + 1);
  }

  method ControllerSummary(c: ControllerResult) returns (cs: Counts)
    ensures FlatIs(cs, ControllerSets(c))
  {
    cs := FlatSet(c.results);
    var other := PodSummary(c.pod);
    PlusIsFlat(cs, [c.results], other, PodSets(c.pod));
    cs := cs.Plus(other);
  }

  method AuditSummary(controllers: seq<ControllerResult>) returns (cs: Counts)
    ensures FlatIs(cs, AuditSets(controllers))
  {
    cs := ZERO;
    for i := 0 to |controllers|
      invariant FlatIs(cs, AuditSets(controllers[..i]))
    {
      var other := ControllerSummary(controllers[i]);
      assert controllers[..i + 1][..i] == controllers[..i];
      PlusIsFlat(cs, AuditSets(controllers[..i]), other, ControllerSets(controllers[i]));
      cs := cs.Plus(other);
    }
    assert controllers[..|controllers|] == controllers;
  }

  lemma {:induction false} FlatOfLeaves(leaves: seq<Tally>, sets: seq<ResultSet>, counter: Counter)
    requires Pairwise(Exact, leaves, sets)
    ensures Flat(leaves, counter) == FlatTruth(sets, counter)
  {
    if sets != [] {
      var n := |sets| - 1;
      PairwiseFront(Exact, leaves, sets);
      FlatOfLeaves(leaves[..n], sets[..n], counter);
      ExactTotal(leaves[n], sets[n], counter);
    }
  }

  lemma ExactTotal(leaf: Tally, rs: ResultSet, counter: Counter)
    requires Exact(leaf, rs)
    ensures Total(leaf, counter) == Read(Tallied(rs, rs.Keys), counter)
  {
  }

  /** The categories of a summary together count at least what the flat summary
      of the same pod, controller or audit does, and the same exactly when no
      category occurs in two of its result sets. */
  lemma CategoriesMatchFlatIff(tally: Tally, leaves: seq<Tally>, flat: Counts, sets: seq<ResultSet>)
    requires MergedFrom(tally, leaves, sets) && FlatIs(flat, sets)
    ensures forall counter :: Read(flat, counter) <= Total(tally, counter)
    ensures (forall counter :: Total(tally, counter) == Read(flat, counter)) <==> NoneInTwo(sets)
  {
    forall counter ensures Flat(leaves, counter) == Read(flat, counter) { FlatOfLeaves(leaves, sets, counter); }
    TotalIsFlatIff(tally, leaves);
    NoneInTwoIff(tally, leaves, sets);
  }

  ghost predicate NoneInTwo(sets: seq<ResultSet>) {
    forall c :: InOneSet(sets, c)
  }

  lemma NoneInTwoIff(tally: Tally, leaves: seq<Tally>, sets: seq<ResultSet>)
    requires MergedFrom(tally, leaves, sets)
    ensures NoneShared(leaves) <==> NoneInTwo(sets)
  {
    forall c ensures AtMostOne(leaves, c) <==> InOneSet(sets, c) { OneSetIff(leaves, sets, c); }
  }
}
