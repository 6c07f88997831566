/** How Polaris counts results (pkg/polaris/validator/summary.go). */
module PolarisSummary {
  import opened Common

  datatype Severity = Ignore | Warning | Error | Other(name: string)

  datatype ResultMessage = ResultMessage(id: string, message: string, success: bool, severity: Severity, category: string)

  type ResultSet = map<string, ResultMessage>

  datatype Counts = Counts(successes: int, warnings: int, errors: int) {
    function Plus(other: Counts): Counts {
      Counts(successes + other.successes, warnings + other.warnings, errors + other.errors)
    }

    function AddResult(result: ResultMessage): Counts {
      if result.success then this.(successes := successes + 1)
      else if result.severity == Warning then this.(warnings := warnings + 1)
      else this.(errors := errors + 1)
    }

    function Size(): int {
      successes + warnings + errors
    }

    predicate Positive() {
      successes >= 0 && warnings >= 0 && errors >= 0 && Size() > 0
    }

    predicate AtMost(other: Counts) {
      successes <= other.successes && warnings <= other.warnings && errors <= other.errors
    }
  }

  const ZERO := Counts(0, 0, 0)

  type Tally = map<string, Counts>

  function At(tally: Tally, category: string): Counts {
    if category in tally then tally[category] else ZERO
  }

  // One result set.

  /** A stray has failed with a severity that is neither warning nor error. */
  datatype Status = Success | Warned | Failed | Stray

  function StatusOf(m: ResultMessage): Status {
    if m.success then Success else if m.severity == Warning then Warned else if m.severity == Error then Failed else Stray
  }

  function Those(rs: ResultSet, status: Status): set<string> {
    set id | id in rs && StatusOf(rs[id]) == status
  }

  /** The number of results of each status among the given IDs. */
  ghost function Tallied(rs: ResultSet, ids: set<string>): Counts {
    Counts(|ids * Those(rs, Success)|, |ids * Those(rs, Warned)|, |ids * Those(rs, Failed)| + |ids * Those(rs, Stray)|)
  }

  /** The counters: successes; failures with severity warning; all other failures. */
  lemma TalliedAre(rs: ResultSet, ids: set<string>)
    requires ids <= rs.Keys
    ensures Tallied(rs, ids).successes == |set id | id in ids && rs[id].success|
    ensures Tallied(rs, ids).warnings == |set id | id in ids && !rs[id].success && rs[id].severity == Warning|
    ensures Tallied(rs, ids).errors == |set id | id in ids && !rs[id].success && rs[id].severity != Warning|
  {
    SuccessesAre(rs, ids);
    WarningsAre(rs, ids);
    ErrorsAre(rs, ids);
    Disjoint(ids * Those(rs, Failed), ids * Those(rs, Stray), ids * Those(rs, Failed) + ids * Those(rs, Stray));
  }

  lemma SuccessesAre(rs: ResultSet, ids: set<string>)
    requires ids <= rs.Keys
    ensures ids * Those(rs, Success) == set id | id in ids && rs[id].success
  {
  }

  lemma WarningsAre(rs: ResultSet, ids: set<string>)
    requires ids <= rs.Keys
    ensures ids * Those(rs, Warned) == set id | id in ids && !rs[id].success && rs[id].severity == Warning
  {
  }

  lemma ErrorsAre(rs: ResultSet, ids: set<string>)
    requires ids <= rs.Keys
    ensures ids * Those(rs, Failed) + ids * Those(rs, Stray) == set id | id in ids && !rs[id].success && rs[id].severity != Warning
    ensures ids * Those(rs, Failed) !! ids * Those(rs, Stray)
  {
  }

  lemma Disjoint(a: set<string>, b: set<string>, both: set<string>)
    requires a !! b && a + b == both
    ensures |both| == |a| + |b|
  {
  }

  function InCategory(rs: ResultSet, category: string): set<string> {
    set id | id in rs && rs[id].category == category
  }

  lemma TallyMore(rs: ResultSet, ids: set<string>, id: string)
    requires id in rs && id !in ids
    ensures Tallied(rs, ids + {id}) == Tallied(rs, ids).AddResult(rs[id])
  {
    OneMore(ids, id, Those(rs, Success));
    OneMore(ids, id, Those(rs, Warned));
    OneMore(ids, id, Those(rs, Failed));
    OneMore(ids, id, Those(rs, Stray));
  }

  lemma OneMore(ids: set<string>, id: string, of: set<string>)
    requires id !in ids
    ensures |(ids + {id}) * of| == |ids * of| + if id in of then 1 else 0
  {
    if id in of {
      assert (ids + {id}) * of == ids * of + {id};
    } else {
      assert (ids + {id}) * of == ids * of;
    }
  }

  /** The flat summary counts every result once, in any range order. */
  method GetSummary(rs: ResultSet) returns (cs: Counts)
    ensures cs == Tallied(rs, rs.Keys)
  {
    cs := ZERO;
    var order := AnyOrder(rs.Keys);
    for i := 0 to |order|
      invariant cs == Tallied(rs, Elements(order[..i]))
    {
      ElementsOfPrefix(order, i);
      assert order[i] in Elements(order);
      TallyMore(rs, Elements(order[..i]), order[i]);
      cs := cs.AddResult(rs[order[i]]);
    }
    assert order[..|order|] == order;
  }

  ghost function TalliedIn(rs: ResultSet, ids: set<string>, category: string): Counts {
    Tallied(rs, ids * InCategory(rs, category))
  }

  lemma TalliedInMore(rs: ResultSet, ids: set<string>, id: string, c: string)
    requires id in rs && id !in ids
    ensures TalliedIn(rs, ids + {id}, c) ==
      if rs[id].category == c then TalliedIn(rs, ids, c).AddResult(rs[id]) else TalliedIn(rs, ids, c)
  {
    var of := InCategory(rs, c);
    CategoryMore(rs, ids, id, c);
    if rs[id].category == c {
      TallyMore(rs, ids * of, id);
    }
  }

  lemma CategoryMore(rs: ResultSet, ids: set<string>, id: string, c: string)
    requires id in rs
    ensures (ids + {id}) * InCategory(rs, c) == ids * InCategory(rs, c) + if rs[id].category == c then {id} else {}
  {
  }

  /** The map holds the true count of every category among the given IDs, and no
      category without results. */
  ghost predicate Tallies(tally: Tally, rs: ResultSet, ids: set<string>) {
    && (forall c :: At(tally, c) == TalliedIn(rs, ids, c))
    && NonZero(tally)
  }

  lemma TalliesMore(tally: Tally, rs: ResultSet, ids: set<string>, id: string)
    requires Tallies(tally, rs, ids) && id in rs && id !in ids
    ensures var c := rs[id].category;
      Tallies(tally[c := At(tally, c).AddResult(rs[id])], rs, ids + {id})
  {
    var c := rs[id].category;
    var v := At(tally, c).AddResult(rs[id]);
    AtUpdated(tally, c, v);
    AddedIsPositive(At(tally, c), rs[id]);
    forall d ensures At(tally[c := v], d) == TalliedIn(rs, ids + {id}, d) {
      TalliedInMore(rs, ids, id, d);
    }
  }

  lemma TalliesNothing(rs: ResultSet)
    ensures Tallies(map[], rs, {})
  {
    forall d ensures TalliedIn(rs, {}, d) == ZERO {
      assert {} * InCategory(rs, d) == {};
    }
  }

  lemma AddedIsPositive(counts: Counts, r: ResultMessage)
    requires counts.successes >= 0 && counts.warnings >= 0 && counts.errors >= 0
    ensures counts.AddResult(r).Positive()
  {
  }

  lemma AtUpdated(tally: Tally, c: string, v: Counts)
    ensures forall d :: At(tally[c := v], d) == if d == c then v else At(tally, d)
    ensures NonZero(tally) && v.Positive() ==> NonZero(tally[c := v])
    ensures NonZero(tally) ==> At(tally, c).successes >= 0 && At(tally, c).warnings >= 0 && At(tally, c).errors >= 0
  {
    forall d ensures At(tally[c := v], d) == if d == c then v else At(tally, d) {
      if d == c { assert tally[c := v][c] == v; }
    }
  }

  ghost function SumFor(f: string -> int, keys: set<string>): int {
    if keys == {} then 0
    else var c :| c in keys; f(c) + SumFor(f, keys - {c})
  }

  lemma {:induction false} PickOne(f: string -> int, keys: set<string>, c: string)
    requires c in keys
    ensures SumFor(f, keys) == f(c) + SumFor(f, keys - {c})
  {
    var d :| d in keys && SumFor(f, keys) == f(d) + SumFor(f, keys - {d});
    if d != c {
      PickOne(f, keys - {d}, c);
      PickOne(f, keys - {c}, d);
      assert keys - {d} - {c} == keys - {c} - {d};
    }
  }

  /** Sums keep pointwise order, and are equal only for equal values. */
  lemma {:induction false} SumsCompare(low: string -> int, high: string -> int, keys: set<string>)
    requires forall c :: c in keys ==> low(c) <= high(c)
    ensures SumFor(low, keys) <= SumFor(high, keys)
    ensures SumFor(low, keys) == SumFor(high, keys) <==> forall c :: c in keys ==> low(c) == high(c)
  {
    if keys != {} {
      var c :| c in keys;
      PickOne(low, keys, c);
      PickOne(high, keys, c);
      SumsCompare(low, high, keys - {c});
    }
  }

  lemma {:induction false} SumsAdd(a: string -> int, b: string -> int, sum: string -> int, keys: set<string>)
    requires forall c :: c in keys ==> sum(c) == a(c) + b(c)
    ensures SumFor(sum, keys) == SumFor(a, keys) + SumFor(b, keys)
  {
    if keys != {} {
      var c :| c in keys;
      PickOne(a, keys, c);
      PickOne(b, keys, c);
      PickOne(sum, keys, c);
      SumsAdd(a, b, sum, keys - {c});
    }
  }

  lemma {:induction false} ZerosDoNotCount(f: string -> int, keys: set<string>, more: set<string>)
    requires keys <= more && forall c :: c in more - keys ==> f(c) == 0
    ensures SumFor(f, more) == SumFor(f, keys)
  {
    if c :| c in more - keys {
      PickOne(f, more, c);
      ZerosDoNotCount(f, keys, more - {c});
    } else {
      assert forall c :: c in more ==> c in keys by {
        forall c | c in more ensures c in keys { assert c !in more - keys; }
      }
      assert more == keys;
    }
  }

  /** One of the three counters. */
  datatype Counter = SuccessCounter | WarningCounter | ErrorCounter

  function Read(counts: Counts, counter: Counter): int {
    match counter
    case SuccessCounter => counts.successes
    case WarningCounter => counts.warnings
    case ErrorCounter => counts.errors
  }

  function CountsOf(tally: Tally, counter: Counter): string -> int {
    c => Read(At(tally, c), counter)
  }

  /** The sum of a counter over all categories. */
  ghost function Total(tally: Tally, counter: Counter): int {
    SumFor(CountsOf(tally, counter), tally.Keys)
  }

  /** All categories together have the given counts. */
  ghost predicate Totals(tally: Tally, counts: Counts) {
    forall counter :: Total(tally, counter) == Read(counts, counter)
  }

  lemma TotalMore(tally: Tally, c: string, v: Counts, counter: Counter)
    ensures Total(tally[c := v], counter) == Total(tally, counter) + Read(v, counter) - Read(At(tally, c), counter)
  {
    var more := tally[c := v];
    var f, g := CountsOf(tally, counter), CountsOf(more, counter);
    ZerosDoNotCount(f, tally.Keys, tally.Keys + {c});
    assert more.Keys == tally.Keys + {c};
    PickOne(f, more.Keys, c);
    PickOne(g, more.Keys, c);
    SumsCompare(f, g, more.Keys - {c});
  }

  lemma TotalsMore(tally: Tally, counts: Counts, c: string, r: ResultMessage)
    requires Totals(tally, counts)
    ensures Totals(tally[c := At(tally, c).AddResult(r)], counts.AddResult(r))
  {
    forall counter ensures Total(tally[c := At(tally, c).AddResult(r)], counter) == Read(counts.AddResult(r), counter) {
      TotalMore(tally, c, At(tally, c).AddResult(r), counter);
    }
  }

  /** The summary by category of a result set: the counts of its categories, which
      together count every result. */
  ghost predicate Exact(tally: Tally, rs: ResultSet) {
    Tallies(tally, rs, rs.Keys) && Totals(tally, Tallied(rs, rs.Keys))
  }

  method GetSummaryByCategory(rs: ResultSet) returns (summaries: Tally)
    ensures Exact(summaries, rs)
  {
    summaries := map[];
    var order := AnyOrder(rs.Keys);
    ghost var seen := {};
    TalliesNothing(rs);
    assert Totals(map[], ZERO) && Tallied(rs, {}) == ZERO;
    for i := 0 to |order|
      invariant seen == Elements(order[..i])
      invariant Tallies(summaries, rs, seen)
      invariant Totals(summaries, Tallied(rs, seen))
    {
      ElementsOfPrefix(order, i);
      assert order[i] in Elements(order);
      ghost var more := seen + {order[i]};
      summaries := CountResult(summaries, rs, order[i], seen, more);
      seen := more;
    }
    assert order[..|order|] == order;
  }

  /** What the summary says of a category: the counters of the results that have
      this category. */
  lemma CategoriesAre(tally: Tally, rs: ResultSet, category: string)
    requires Exact(tally, rs)
    ensures category in tally <==> exists id :: id in rs && rs[id].category == category
    ensures category in tally ==>
      var ids := set id | id in rs && rs[id].category == category;
      && tally[category].successes == |set id | id in ids && rs[id].success|
      && tally[category].warnings == |set id | id in ids && !rs[id].success && rs[id].severity == Warning|
      && tally[category].errors == |set id | id in ids && !rs[id].success && rs[id].severity != Warning|
  {
    PresentIff(tally, rs, category);
    var ids := set id | id in rs && rs[id].category == category;
    assert rs.Keys * InCategory(rs, category) == ids == InCategory(rs, category);
    TalliedAre(rs, ids);
    assert At(tally, category) == TalliedIn(rs, rs.Keys, category);
    if id :| id in rs && rs[id].category == category { assert id in InCategory(rs, category); }
    if id :| id in InCategory(rs, category) { assert rs[id].category == category; }
  }

  lemma PresentIff(tally: Tally, rs: ResultSet, c: string)
    requires Tallies(tally, rs, rs.Keys)
    ensures c in tally <==> InCategory(rs, c) != {}
  {
    if InCategory(rs, c) == {} {
      assert rs.Keys * InCategory(rs, c) == {};
      assert TalliedIn(rs, rs.Keys, c) == ZERO;
    } else {
      var id :| id in InCategory(rs, c);
      TalliedInMore(rs, rs.Keys - {id}, id, c);
      assert rs.Keys - {id} + {id} == rs.Keys;
      assert At(tally, c) != ZERO;
    }
  }

  method CountResult(tally: Tally, rs: ResultSet, id: string, ghost seen: set<string>, ghost more: set<string>)
    returns (summaries: Tally)
    requires Tallies(tally, rs, seen) && id in rs && id !in seen && more == seen + {id}
    requires Totals(tally, Tallied(rs, seen))
    ensures Tallies(summaries, rs, more)
    ensures Totals(summaries, Tallied(rs, more))
  {
    var c := rs[id].category;
    var cs := if c in tally then tally[c] else ZERO;
    summaries := tally[c := cs.AddResult(rs[id])];
    TalliesMore(tally, rs, seen, id);
    TallyMore(rs, seen, id);
    TotalsMore(tally, Tallied(rs, seen), c, rs[id]);
  }

  // Sorted results.

  function Messages(rs: ResultSet, ids: seq<string>): seq<ResultMessage>
    requires forall id :: id in ids ==> id in rs
  {
    seq(|ids|, i requires 0 <= i < |ids| => rs[ids[i]])
  }

  /** The shared loop of GetErrors, GetWarnings and GetSuccesses: the messages
      to keep, each once, in some range order. */
  method Collect(rs: ResultSet, status: Status) returns (messages: seq<ResultMessage>, ghost ids: seq<string>)
    ensures Distinct(ids) && Elements(ids) == Those(rs, status) && forall m :: m in messages ==> StatusOf(m) == status
    ensures (forall id :: id in ids ==> id in rs) && messages == Messages(rs, ids)
  {
    messages, ids := [], [];
    var order := AnyOrder(rs.Keys);
    for i := 0 to |order|
      invariant Distinct(ids) && Elements(ids) == Those(rs, status) * Elements(order[..i])
      invariant (forall id :: id in ids ==> id in rs) && messages == Messages(rs, ids)
    {
      var id := order[i];
      ElementsOfPrefix(order, i);
      assert id in Elements(order) && id !in Elements(order[..i]);
      if StatusOf(rs[id]) == status {
        assert id !in Elements(ids);
        assert Elements(ids + [id]) == Elements(ids) + {id};
        assert Those(rs, status) * (Elements(order[..i]) + {id}) == Those(rs, status) * Elements(order[..i]) + {id};
        messages, ids := messages + [rs[id]], ids + [id];
      } else {
        assert Those(rs, status) * (Elements(order[..i]) + {id}) == Those(rs, status) * Elements(order[..i]);
      }
    }
    assert order[..|order|] == order;
    assert Those(rs, status) * rs.Keys == Those(rs, status);
    forall m | m in messages ensures StatusOf(m) == status {
      var k :| 0 <= k < |messages| && messages[k] == m;
      assert ids[k] in Elements(ids);
    }
  }

  /** Errors, then warnings, then successes. Every result appears once and the
      parts are as long as the summary says, up to failed results with a severity
      besides warning and error: the summary counts those as errors, the sorted
      list leaves them out. */
  method GetSortedResults(rs: ResultSet) returns (messages: seq<ResultMessage>, errors: nat, warnings: nat, ghost ids: seq<string>)
    ensures Distinct(ids) && Elements(ids) == rs.Keys - Those(rs, Stray)
    ensures (forall id :: id in ids ==> id in rs) && messages == Messages(rs, ids)
    ensures errors + warnings <= |messages|
    ensures (forall m :: m in messages[..errors] ==> !m.success && m.severity == Error)
    ensures (forall m :: m in messages[errors..errors + warnings] ==> !m.success && m.severity == Warning)
    ensures (forall m :: m in messages[errors + warnings..] ==> m.success)
    ensures Tallied(rs, rs.Keys) == Counts(|messages| - errors - warnings, warnings, errors + |Those(rs, Stray)|)
    ensures |messages| + |Those(rs, Stray)| == |rs|
  {
    var e, eids := Collect(rs, Failed);
    var w, wids := Collect(rs, Warned);
    var s, sids := Collect(rs, Success);
    messages, errors, warnings, ids := e + w + s, |e|, |w|, eids + wids + sids;
    PartsAre(e, w, s);
    MessagesConcat(rs, eids, wids);
    MessagesConcat(rs, eids + wids, sids);
    SortedCounts(rs, eids, wids, sids);
  }

  lemma PartsAre(e: seq<ResultMessage>, w: seq<ResultMessage>, s: seq<ResultMessage>)
    requires forall m :: m in e ==> StatusOf(m) == Failed
    requires forall m :: m in w ==> StatusOf(m) == Warned
    requires forall m :: m in s ==> StatusOf(m) == Success
    ensures forall m :: m in (e + w + s)[..|e|] ==> !m.success && m.severity == Error
    ensures forall m :: m in (e + w + s)[|e|..|e| + |w|] ==> !m.success && m.severity == Warning
    ensures forall m :: m in (e + w + s)[|e| + |w|..] ==> m.success
  {
    var all := e + w + s;
    assert all[..|e|] == e && all[|e|..|e| + |w|] == w && all[|e| + |w|..] == s;
  }

  lemma MessagesConcat(rs: ResultSet, a: seq<string>, b: seq<string>)
    requires (forall id :: id in a ==> id in rs) && (forall id :: id in b ==> id in rs)
    ensures forall id :: id in a + b ==> id in rs
    ensures Messages(rs, a + b) == Messages(rs, a) + Messages(rs, b)
  {
  }

  lemma ElementsOfConcat(a: seq<string>, b: seq<string>)
    requires Distinct(a) && Distinct(b) && Elements(a) !! Elements(b)
    ensures Elements(a + b) == Elements(a) + Elements(b) && Distinct(a + b)
  {
    forall i, j | 0 <= i < |a| && 0 <= j < |b| ensures a[i] != b[j] {
      assert a[i] in Elements(a) && b[j] in Elements(b);
    }
  }

  lemma Partition(rs: ResultSet)
    ensures Those(rs, Failed) !! Those(rs, Warned) && Those(rs, Failed) + Those(rs, Warned) !! Those(rs, Success)
    ensures rs.Keys == Those(rs, Failed) + Those(rs, Warned) + Those(rs, Success) + Those(rs, Stray)
    ensures |rs| == |Those(rs, Failed)| + |Those(rs, Warned)| + |Those(rs, Success)| + |Those(rs, Stray)|
    ensures Tallied(rs, rs.Keys) == Counts(|Those(rs, Success)|, |Those(rs, Warned)|, |Those(rs, Failed)| + |Those(rs, Stray)|)
  {
    FourParts(rs.Keys, Those(rs, Failed), Those(rs, Warned), Those(rs, Success), Those(rs, Stray));
  }

  lemma FourParts(all: set<string>, a: set<string>, b: set<string>, c: set<string>, d: set<string>)
    requires all == a + b + c + d && a !! b && a + b !! c && a + b + c !! d
    ensures |all| == |a| + |b| + |c| + |d|
    ensures all * a == a && all * b == b && all * c == c && all * d == d
  {
    assert |a + b| == |a| + |b|;
    assert |a + b + c| == |a + b| + |c|;
  }

  lemma SortedCounts(rs: ResultSet, e: seq<string>, w: seq<string>, s: seq<string>)
    requires Distinct(e) && Distinct(w) && Distinct(s)
    requires Elements(e) == Those(rs, Failed) && Elements(w) == Those(rs, Warned) && Elements(s) == Those(rs, Success)
    ensures Distinct(e + w + s) && Elements(e + w + s) == rs.Keys - Those(rs, Stray)
    ensures Tallied(rs, rs.Keys) == Counts(|s|, |w|, |e| + |Those(rs, Stray)|)
    ensures |e| + |w| + |s| + |Those(rs, Stray)| == |rs|
  {
    DistinctLength(e);
    DistinctLength(w);
    DistinctLength(s);
    Partition(rs);
    ElementsOfConcat(e, w);
    ElementsOfConcat(e + w, s);
    assert Elements(e + w + s) == rs.Keys - Those(rs, Stray);
  }

  // Merging.

  /** Every category that is present counts something. */
  ghost predicate NonZero(tally: Tally) {
    forall c :: c in tally ==> tally[c].Positive()
  }

  /** The effect of AddSummary on the receiver: a category of both maps is visited
      twice, and so gets the other summary twice. */
  function Merged(tally: Tally, other: Tally): Tally {
    map c | c in tally.Keys + other.Keys ::
      if c in tally then At(tally, c).Plus(At(other, c)).Plus(At(other, c)) else other[c]
  }

  class Summaries {
    var tally: Tally

    constructor (initial: Tally)
      ensures tally == initial
    {
      tally := initial;
    }

    /** AddSummary, for any range orders of the two maps: the list of categories is
        the own ones followed by the others. */
    method AddSummary(other: Tally)
      modifies this
      ensures tally == Merged(old(tally), other)
    {
      AddedTwice(tally, other);
      var own := AnyOrder(tally.Keys);
      var others := AnyOrder(other.Keys);
      AddCategories(other, own);
      AddCategories(other, others);
    }

    /** The loop over a part of the list without repetitions. */
    method AddCategories(other: Tally, categories: seq<string>)
      requires Distinct(categories)
      modifies this
      ensures tally == Added(old(tally), other, Elements(categories))
    {
      for i := 0 to |categories|
        invariant tally == Added(old(tally), other, Elements(categories[..i]))
      {
        var c := categories[i];
        ElementsOfPrefix(categories, i);
        AddedMore(old(tally), other, Elements(categories[..i]), c);
        tally := tally[c := At(tally, c).Plus(At(other, c))];
      }
      assert categories[..|categories|] == categories;
    }
  }

  /** After adding the other summary to each visited category. */
  ghost function Added(tally: Tally, other: Tally, visited: set<string>): Tally {
    map c | c in tally.Keys + visited :: if c in visited then At(tally, c).Plus(At(other, c)) else At(tally, c)
  }

  lemma AddedTwice(tally: Tally, other: Tally)
    ensures Added(Added(tally, other, tally.Keys), other, other.Keys) == Merged(tally, other)
  {
  }

  lemma AddedMore(tally: Tally, other: Tally, visited: set<string>, c: string)
    requires c !in visited
    ensures var m := Added(tally, other, visited);
      m[c := At(m, c).Plus(At(other, c))] == Added(tally, other, visited + {c})
  {
  }

  function MergeAll(tallies: seq<Tally>): Tally {
    if tallies == [] then map[] else Merged(MergeAll(tallies[..|tallies| - 1]), tallies[|tallies| - 1])
  }

  /** What merging should compute. */
  function Sum(tallies: seq<Tally>, category: string): Counts {
    if tallies == [] then ZERO else Sum(tallies[..|tallies| - 1], category).Plus(At(tallies[|tallies| - 1], category))
  }

  predicate Occurs(tallies: seq<Tally>, category: string) {
    tallies != [] && (Occurs(tallies[..|tallies| - 1], category) || category in tallies[|tallies| - 1])
  }

  predicate AtMostOne(tallies: seq<Tally>, category: string) {
    tallies == [] ||
    var front, last := tallies[..|tallies| - 1], tallies[|tallies| - 1];
    AtMostOne(front, category) && !(Occurs(front, category) && category in last)
  }

  lemma {:induction false} OccursIff(tallies: seq<Tally>, category: string)
    ensures Occurs(tallies, category) <==> exists i :: 0 <= i < |tallies| && category in tallies[i]
  {
    if tallies != [] {
      var n := |tallies| - 1;
      OccursIff(tallies[..n], category);
      assert forall i :: 0 <= i < n ==> tallies[..n][i] == tallies[i];
    }
  }

  /** No two of the maps have the category. */
  lemma {:induction false} AtMostOneIff(tallies: seq<Tally>, category: string)
    ensures AtMostOne(tallies, category) <==>
            forall i, j :: 0 <= i < j < |tallies| ==> !(category in tallies[i] && category in tallies[j])
  {
    if tallies != [] {
      var n := |tallies| - 1;
      AtMostOneIff(tallies[..n], category);
      OccursIff(tallies[..n], category);
      assert forall i :: 0 <= i < n ==> tallies[..n][i] == tallies[i];
    }
  }

  /** What a summary merged from other summaries says of a category: never too
      little, and the right count exactly when at most one of them has it. */
  ghost predicate SummarisesAt(tally: Tally, leaves: seq<Tally>, c: string) {
    Fits(Sum(leaves, c), At(tally, c), AtMostOne(leaves, c), Occurs(leaves, c)) && (c in tally <==> Occurs(leaves, c))
  }

  predicate Fits(sum: Counts, merged: Counts, once: bool, occurs: bool) {
    && ZERO.AtMost(sum) && sum.AtMost(merged)
    && (merged.Size() == sum.Size() <==> once) && (occurs <==> merged.Size() > 0)
  }

  ghost predicate Summarises(tally: Tally, leaves: seq<Tally>) {
    forall c :: SummarisesAt(tally, leaves, c)
  }

  lemma MergedAt(tally: Tally, other: Tally, c: string)
    ensures At(Merged(tally, other), c) ==
      if c in tally && c in other then At(tally, c).Plus(At(other, c)).Plus(At(other, c)) else At(tally, c).Plus(At(other, c))
    ensures c in Merged(tally, other) <==> c in tally || c in other
  {
  }

  /** One success each: the merged summary shows three. */
  lemma SharedCategoryCountsTwice(c: string)
    ensures At(Merged(map[c := Counts(1, 0, 0)], map[c := Counts(1, 0, 0)]), c) == Counts(3, 0, 0)
  {
    MergedAt(map[c := Counts(1, 0, 0)], map[c := Counts(1, 0, 0)], c);
  }

  lemma {:induction false} SumConcat(a: seq<Tally>, b: seq<Tally>, c: string)
    ensures Sum(a + b, c) == Sum(a, c).Plus(Sum(b, c))
  {
    if b == [] {
      assert a + b == a;
    } else {
      assert (a + b)[..|a + b| - 1] == a + b[..|b| - 1];
      SumConcat(a, b[..|b| - 1], c);
    }
  }

  lemma {:induction false} OnceConcat(a: seq<Tally>, b: seq<Tally>, c: string)
    ensures Occurs(a + b, c) <==> Occurs(a, c) || Occurs(b, c)
    ensures AtMostOne(a + b, c) <==> AtMostOne(a, c) && AtMostOne(b, c) && !(Occurs(a, c) && Occurs(b, c))
  {
    if b == [] {
      assert a + b == a;
    } else {
      assert (a + b)[..|a + b| - 1] == a + b[..|b| - 1];
      OnceConcat(a, b[..|b| - 1], c);
    }
  }

  lemma FitsMerged(sum: Counts, merged: Counts, once: bool, occurs: bool, sum': Counts, other: Counts, once': bool, occurs': bool,
                   all: Counts, after: Counts, allOnce: bool, allOccurs: bool)
    requires Fits(sum, merged, once, occurs) && Fits(sum', other, once', occurs')
    requires all == sum.Plus(sum') && (allOccurs <==> occurs || occurs')
    requires after == if occurs && occurs' then merged.Plus(other).Plus(other) else merged.Plus(other)
    requires allOnce <==> once && once' && !(occurs && occurs')
    ensures Fits(all, after, allOnce, allOccurs)
  {
  }

  lemma SummariesCombine(tally: Tally, leaves: seq<Tally>, other: Tally, leaves': seq<Tally>, merged: Tally, all: seq<Tally>, c: string)
    requires SummarisesAt(tally, leaves, c) && SummarisesAt(other, leaves', c)
    requires Sum(all, c) == Sum(leaves, c).Plus(Sum(leaves', c))
    requires Occurs(all, c) <==> Occurs(leaves, c) || Occurs(leaves', c)
    requires AtMostOne(all, c) <==> AtMostOne(leaves, c) && AtMostOne(leaves', c) && !(Occurs(leaves, c) && Occurs(leaves', c))
    requires At(merged, c) ==
      if c in tally && c in other then At(tally, c).Plus(At(other, c)).Plus(At(other, c)) else At(tally, c).Plus(At(other, c))
    requires c in merged <==> c in tally || c in other
    ensures SummarisesAt(merged, all, c)
  {
    FitsMerged(Sum(leaves, c), At(tally, c), AtMostOne(leaves, c), Occurs(leaves, c),
               Sum(leaves', c), At(other, c), AtMostOne(leaves', c), Occurs(leaves', c),
               Sum(all, c), At(merged, c), AtMostOne(all, c), Occurs(all, c));
  }

  lemma MergedSummarisesAt(tally: Tally, leaves: seq<Tally>, other: Tally, leaves': seq<Tally>, c: string)
    requires SummarisesAt(tally, leaves, c) && SummarisesAt(other, leaves', c)
    ensures SummarisesAt(Merged(tally, other), leaves + leaves', c)
  {
    SumConcat(leaves, leaves', c);
    OnceConcat(leaves, leaves', c);
    MergedAt(tally, other, c);
    SummariesCombine(tally, leaves, other, leaves', Merged(tally, other), leaves + leaves', c);
  }

  /** Merging two summaries gives a summary of all that they were merged from, at
      any depth. */
  lemma MergedSummarises(tally: Tally, leaves: seq<Tally>, other: Tally, leaves': seq<Tally>)
    requires Summarises(tally, leaves) && Summarises(other, leaves')
    ensures Summarises(Merged(tally, other), leaves + leaves')
  {
    forall c ensures SummarisesAt(Merged(tally, other), leaves + leaves', c) {
      MergedSummarisesAt(tally, leaves, other, leaves', c);
    }
  }

  lemma LeafSummarises(tally: Tally, leaves: seq<Tally>)
    requires NonZero(tally) && |leaves| == 1 && leaves[0] == tally
    ensures Summarises(tally, leaves)
  {
    forall c ensures SummarisesAt(tally, leaves, c) {
      LeafSummarisesAt(tally, leaves, c);
    }
  }

  lemma LeafSummarisesAt(tally: Tally, leaves: seq<Tally>, c: string)
    requires |leaves| == 1 && leaves[0] == tally && (c in tally ==> tally[c].Positive())
    ensures SummarisesAt(tally, leaves, c)
  {
    OneLeaf(leaves, tally, c);
    OneLeafSum(leaves, tally, c);
    FitsEqual(Sum(leaves, c), At(tally, c), AtMostOne(leaves, c), Occurs(leaves, c));
  }

  lemma FitsEqual(sum: Counts, here: Counts, once: bool, occurs: bool)
    requires sum.successes == here.successes && sum.warnings == here.warnings && sum.errors == here.errors
    requires once && if occurs then here.Positive() else here.successes == 0 && here.warnings == 0 && here.errors == 0
    ensures Fits(sum, here, once, occurs)
  {
  }

  lemma OneLeaf(leaves: seq<Tally>, tally: Tally, c: string)
    requires |leaves| == 1 && leaves[0] == tally
    ensures AtMostOne(leaves, c) && (Occurs(leaves, c) <==> c in tally)
  {
    var front := leaves[..|leaves| - 1];
    assert front == [];
    assert AtMostOne(front, c) && !Occurs(front, c);
  }

  lemma OneLeafSum(leaves: seq<Tally>, tally: Tally, c: string)
    requires |leaves| == 1 && leaves[0] == tally
    ensures var sum, here := Sum(leaves, c), At(tally, c);
      sum.successes == here.successes && sum.warnings == here.warnings && sum.errors == here.errors
  {
    assert Sum(leaves[..|leaves| - 1], c) == ZERO;
  }

  /** Merging a list of summaries one after the other. */
  lemma {:induction false} MergeExactIff(tallies: seq<Tally>)
    requires forall i :: 0 <= i < |tallies| ==> NonZero(tallies[i])
    ensures Summarises(MergeAll(tallies), tallies)
  {
    if tallies != [] {
      var n := |tallies| - 1;
      MergeExactIff(tallies[..n]);
      LeafSummarises(tallies[n], [tallies[n]]);
      MergedSummarises(MergeAll(tallies[..n]), tallies[..n], tallies[n], [tallies[n]]);
      assert tallies[..n] + [tallies[n]] == tallies;
    }
  }

  // Flat totals.

  /** The sum of a counter over everything in the leaves. */
  ghost function Flat(leaves: seq<Tally>, counter: Counter): int {
    if leaves == [] then 0 else Flat(leaves[..|leaves| - 1], counter) + Total(leaves[|leaves| - 1], counter)
  }

  function SumsOf(leaves: seq<Tally>, counter: Counter): string -> int {
    c => Read(Sum(leaves, c), counter)
  }

  lemma {:induction false} FlatIsSum(leaves: seq<Tally>, keys: set<string>, counter: Counter)
    requires forall i :: 0 <= i < |leaves| ==> leaves[i].Keys <= keys
    ensures SumFor(SumsOf(leaves, counter), keys) == Flat(leaves, counter)
  {
    if leaves == [] {
      ZerosDoNotCount(SumsOf(leaves, counter), {}, keys);
    } else {
      var n := |leaves| - 1;
      var front, last := leaves[..n], leaves[n];
      FlatIsSum(front, keys, counter);
      ZerosDoNotCount(CountsOf(last, counter), last.Keys, keys);
      SumsAdd(SumsOf(front, counter), CountsOf(last, counter), SumsOf(leaves, counter), keys);
    }
  }

  /** No category occurs twice. */
  ghost predicate NoneShared(leaves: seq<Tally>) {
    forall c :: AtMostOne(leaves, c)
  }

  /** The categories of a merged summary together never count too little, and
      equal the flat total exactly when no category is shared. */
  lemma TotalIsFlatIff(tally: Tally, leaves: seq<Tally>)
    requires Summarises(tally, leaves)
    ensures forall counter :: Flat(leaves, counter) <= Total(tally, counter)
    ensures (forall counter :: Total(tally, counter) == Flat(leaves, counter)) <==> NoneShared(leaves)
  {
    var keys := tally.Keys;
    forall i | 0 <= i < |leaves| ensures leaves[i].Keys <= keys {
      LeafKeys(tally, leaves, i);
    }
    forall counter
      ensures Flat(leaves, counter) <= Total(tally, counter)
      ensures Total(tally, counter) == Flat(leaves, counter) <==> SameAt(tally, leaves, counter)
    {
      CompareTotals(tally, leaves, counter);
    }
    if forall counter :: Total(tally, counter) == Flat(leaves, counter) {
      OnceIfSame(tally, leaves);
    }
    if NoneShared(leaves) {
      forall counter ensures Total(tally, counter) == Flat(leaves, counter) { SameIfOnce(tally, leaves, counter); }
    }
  }

  lemma LeafKeys(tally: Tally, leaves: seq<Tally>, i: nat)
    requires Summarises(tally, leaves) && i < |leaves|
    ensures leaves[i].Keys <= tally.Keys
  {
    forall c | c in leaves[i] ensures c in tally {
      assert SummarisesAt(tally, leaves, c);
      OccursIff(leaves, c);
    }
  }

  /** The counter is right in every category. */
  ghost predicate SameAt(tally: Tally, leaves: seq<Tally>, counter: Counter) {
    forall c :: c in tally ==> Read(Sum(leaves, c), counter) == Read(At(tally, c), counter)
  }

  lemma CompareTotals(tally: Tally, leaves: seq<Tally>, counter: Counter)
    requires Summarises(tally, leaves) && forall i :: 0 <= i < |leaves| ==> leaves[i].Keys <= tally.Keys
    ensures Flat(leaves, counter) <= Total(tally, counter)
    ensures Total(tally, counter) == Flat(leaves, counter) <==> SameAt(tally, leaves, counter)
  {
    FlatIsSum(leaves, tally.Keys, counter);
    forall c | c in tally ensures Read(Sum(leaves, c), counter) <= Read(At(tally, c), counter) {
      assert SummarisesAt(tally, leaves, c);
    }
    SumsCompare(SumsOf(leaves, counter), CountsOf(tally, counter), tally.Keys);
  }

  lemma OnceIfSame(tally: Tally, leaves: seq<Tally>)
    requires Summarises(tally, leaves) && forall counter :: SameAt(tally, leaves, counter)
    ensures NoneShared(leaves)
  {
    forall c ensures AtMostOne(leaves, c) {
      assert SummarisesAt(tally, leaves, c);
      forall counter | c in tally ensures Read(Sum(leaves, c), counter) == Read(At(tally, c), counter) {
        assert SameAt(tally, leaves, counter);
      }
      OnceIffSame(tally, leaves, c);
    }
  }

  lemma SameIfOnce(tally: Tally, leaves: seq<Tally>, counter: Counter)
    requires Summarises(tally, leaves) && NoneShared(leaves)
    ensures SameAt(tally, leaves, counter)
  {
    forall c | c in tally ensures Read(Sum(leaves, c), counter) == Read(At(tally, c), counter) {
      assert SummarisesAt(tally, leaves, c) && AtMostOne(leaves, c);
      OnceIffSame(tally, leaves, c);
    }
  }

  lemma OnceIffSame(tally: Tally, leaves: seq<Tally>, c: string)
    requires SummarisesAt(tally, leaves, c)
    ensures AtMostOne(leaves, c) <==> forall counter :: c in tally ==> Read(Sum(leaves, c), counter) == Read(At(tally, c), counter)
  {
    var sum, here := Sum(leaves, c), At(tally, c);
    if c in tally {
      SameCounts(sum, here);
    }
  }

  lemma SameCounts(a: Counts, b: Counts)
    requires a.AtMost(b)
    ensures a.Size() == b.Size() <==> forall counter :: Read(a, counter) == Read(b, counter)
  {
    assert Read(a, SuccessCounter) == a.successes && Read(a, WarningCounter) == a.warnings && Read(a, ErrorCounter) == a.errors;
  }
}
