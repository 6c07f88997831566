/** What the pods of a node request and are limited to (pkg/metrics/node/node.go).
    Quantities are exact numbers. */
module NodeTotals {
  import opened Common

  type Quantities = map<string, int>

  datatype Container = Container(requests: Quantities, limits: Quantities)

  datatype Pod = Pod(containers: seq<Container>, initContainers: seq<Container>)

  function Names(lists: seq<Quantities>): set<string> {
    if lists == [] then {} else Names(lists[..|lists| - 1]) + lists[|lists| - 1].Keys
  }

  function Amount(list: Quantities, name: string): int {
    if name in list then list[name] else 0
  }

  function Sum(lists: seq<Quantities>, name: string): int {
    if lists == [] then 0 else Sum(lists[..|lists| - 1], name) + Amount(lists[|lists| - 1], name)
  }

  function Max(lists: seq<Quantities>, name: string): int
    requires name in Names(lists)
  {
    var front, last := lists[..|lists| - 1], lists[|lists| - 1];
    if name !in last then Max(front, name)
    else if name in Names(front) && Max(front, name) >= last[name] then Max(front, name)
    else last[name]
  }

  /** Max is the largest quantity among the lists that mention the name. */
  lemma {:induction false} MaxIsLargest(lists: seq<Quantities>, name: string)
    ensures name in Names(lists) <==> exists i :: 0 <= i < |lists| && name in lists[i]
    ensures name in Names(lists) ==>
      && (exists i :: 0 <= i < |lists| && name in lists[i] && lists[i][name] == Max(lists, name))
      && (forall i :: 0 <= i < |lists| && name in lists[i] ==> lists[i][name] <= Max(lists, name))
  {
    if lists != [] {
      var n := |lists| - 1;
      var front := lists[..n];
      MaxIsLargest(front, name);
      if name in Names(front) {
        var i :| 0 <= i < n && name in front[i] && front[i][name] == Max(front, name);
        assert lists[i] == front[i];
      }
      forall i | 0 <= i < |lists| && name in lists[i]
        ensures name in Names(lists) && lists[i][name] <= Max(lists, name)
      {
        if i < n { assert lists[i] == front[i]; }
      }
      if name in lists[n] { assert name in lists[n]; }
    }
  }

  /** The sums over the lists, for exactly the names they mention. */
  function Sums(lists: seq<Quantities>): Quantities {
    map name | name in Names(lists) :: Sum(lists, name)
  }

  /** The larger of the sum over the containers and the maximum over the init
      containers, of those that mention the name. */
  function Effective(containers: seq<Quantities>, inits: seq<Quantities>): Quantities {
    map name | name in Names(containers) + Names(inits) ::
      if name !in Names(inits) then Sum(containers, name)
      else if name !in Names(containers) || Max(inits, name) > Sum(containers, name) then Max(inits, name)
      else Sum(containers, name)
  }

  /** A sum adds what each list says of the name, absent being nothing. */
  lemma {:induction false} SumIsAdditive(a: seq<Quantities>, b: seq<Quantities>, name: string)
    ensures Sum(a + b, name) == Sum(a, name) + Sum(b, name)
    ensures forall q :: Sum([map[name := q]], name) == q
    ensures forall list: Quantities :: name !in list ==> Sum([list], name) == 0
  {
    forall list: Quantities ensures Sum([list], name) == if name in list then list[name] else 0 {
      assert [list][..0] == [];
    }
    if b == [] {
      assert a + b == a;
    } else {
      assert (a + b)[..|a + b| - 1] == a + b[..|b| - 1];
      SumIsAdditive(a, b[..|b| - 1], name);
    }
  }

  /** The effective quantity of a mentioned name is the least that is not below the
      containers' sum, if they mention it, nor below any init container's. */
  lemma EffectiveIsLeast(containers: seq<Quantities>, inits: seq<Quantities>, name: string)
    ensures name in Effective(containers, inits) <==> name in Names(containers) || name in Names(inits)
    ensures name in Effective(containers, inits) ==>
      var q := Effective(containers, inits)[name];
      && (name in Names(containers) ==> Sum(containers, name) <= q)
      && (forall i :: 0 <= i < |inits| && name in inits[i] ==> inits[i][name] <= q)
      && ((name in Names(containers) && q == Sum(containers, name)) || exists i :: 0 <= i < |inits| && name in inits[i] && inits[i][name] == q)
  {
    MaxIsLargest(inits, name);
  }

  function Requests(containers: seq<Container>): seq<Quantities> {
    seq(|containers|, i requires 0 <= i < |containers| => containers[i].requests)
  }

  function Limits(containers: seq<Container>): seq<Quantities> {
    seq(|containers|, i requires 0 <= i < |containers| => containers[i].limits)
  }

  function PodRequests(pod: Pod): Quantities {
    Effective(Requests(pod.containers), Requests(pod.initContainers))
  }

  function PodLimits(pod: Pod): Quantities {
    Effective(Limits(pod.containers), Limits(pod.initContainers))
  }

  /** The pod requests what some container or init container requests, at least as
      much as any init container; and the same for limits. */
  lemma PodNames(pod: Pod, name: string)
    ensures name in PodRequests(pod) <==> exists c :: (c in pod.containers || c in pod.initContainers) && name in c.requests
    ensures name in PodLimits(pod) <==> exists c :: (c in pod.containers || c in pod.initContainers) && name in c.limits
    ensures forall c :: c in pod.initContainers ==>
      && (name in c.requests ==> c.requests[name] <= PodRequests(pod)[name])
      && (name in c.limits ==> c.limits[name] <= PodLimits(pod)[name])
  {
    NamesAre(pod.containers, name);
    NamesAre(pod.initContainers, name);
    EffectiveIsLeast(Requests(pod.containers), Requests(pod.initContainers), name);
    EffectiveIsLeast(Limits(pod.containers), Limits(pod.initContainers), name);
    forall c | c in pod.initContainers
      ensures name in c.requests ==> c.requests[name] <= PodRequests(pod)[name]
      ensures name in c.limits ==> c.limits[name] <= PodLimits(pod)[name]
    {
      var i :| 0 <= i < |pod.initContainers| && pod.initContainers[i] == c;
      assert Requests(pod.initContainers)[i] == c.requests && Limits(pod.initContainers)[i] == c.limits;
    }
  }

  lemma NamesAre(cs: seq<Container>, name: string)
    ensures name in Names(Requests(cs)) <==> exists c :: c in cs && name in c.requests
    ensures name in Names(Limits(cs)) <==> exists c :: c in cs && name in c.limits
  {
    MaxIsLargest(Requests(cs), name);
    MaxIsLargest(Limits(cs), name);
    forall c | c in cs ensures c.requests in Requests(cs) && c.limits in Limits(cs) {
      var i :| 0 <= i < |cs| && cs[i] == c;
      assert Requests(cs)[i] == c.requests && Limits(cs)[i] == c.limits;
    }
  }

  function Mapped<T>(f: T -> Quantities, pods: seq<T>): seq<Quantities> {
    seq(|pods|, i requires 0 <= i < |pods| => f(pods[i]))
  }

  function Plus(a: int, b: int): int { a + b }

  function Larger(a: int, b: int): int { if b > a then b else a }

  /** The list after the entries of `more` under the visited names were merged. */
  ghost function Merged(op: (int, int) -> int, list: Quantities, more: Quantities, visited: set<string>): Quantities {
    map name | name in list.Keys + more.Keys * visited ::
      if name !in more || name !in visited then list[name]
      else if name !in list then more[name]
      else op(list[name], more[name])
  }

  lemma MergedMore(op: (int, int) -> int, list: Quantities, more: Quantities, visited: set<string>, name: string)
    requires name in more && name !in visited
    ensures var m := Merged(op, list, more, visited);
      && (name in m <==> name in list) && (name in list ==> m[name] == list[name])
      && m[name := if name in list then op(list[name], more[name]) else more[name]] == Merged(op, list, more, visited + {name})
  {
  }

  lemma AddedMore(list: Quantities, more: Quantities, visited: set<string>, name: string)
    requires name in more && name !in visited
    ensures var m := Merged(Plus, list, more, visited);
      m[name := if name !in m then more[name] else m[name] + more[name]] == Merged(Plus, list, more, visited + {name})
  {
    MergedMore(Plus, list, more, visited, name);
  }

  class ResourceList {
    var list: Quantities

    constructor ()
      ensures list == map[]
    {
      list := map[];
    }

    /** addResourceList, for any range order. */
    method Add(more: Quantities)
      modifies this
      ensures list == Merged(Plus, old(list), more, more.Keys)
    {
      ghost var first, visited := list, {};
      var order := AnyOrder(more.Keys);
      for i := 0 to |order|
        invariant visited == Elements(order[..i])
        invariant list == Merged(Plus, first, more, visited)
      {
        var name := order[i];
        assert name in Elements(order);
        ElementsOfPrefix(order, i);
        AddedMore(first, more, visited, name);
        list := list[name := if name !in list then more[name] else list[name] + more[name]];
        visited := visited + {name};
      }
      assert order[..|order|] == order;
    }

    /** maxResourceList, for any range order. */
    method Raise(more: Quantities)
      modifies this
      ensures list == Merged(Larger, old(list), more, more.Keys)
    {
      var order := AnyOrder(more.Keys);
      for i := 0 to |order|
        invariant list == Merged(Larger, old(list), more, Elements(order[..i]))
      {
        var name := order[i];
        assert name in Elements(order);
        ElementsOfPrefix(order, i);
        MergedMore(Larger, old(list), more, Elements(order[..i]), name);
        if name !in list || more[name] > list[name] {
          list := list[name := more[name]];
        } else {
          assert list == list[name := list[name]];
        }
      }
      assert order[..|order|] == order;
    }
  }

  lemma SumsMore(lists: seq<Quantities>, n: nat)
    requires n < |lists|
    ensures Sums(lists[..n + 1]) == Merged(Plus, Sums(lists[..n]), lists[n], lists[n].Keys)
  {
    assert lists[..n + 1][..n] == lists[..n];
    forall name | name !in Names(lists[..n]) ensures Sum(lists[..n], name) == 0 {
      UnmentionedIsZero(lists[..n], name);
    }
  }

  lemma {:induction false} UnmentionedIsZero(lists: seq<Quantities>, name: string)
    requires name !in Names(lists)
    ensures Sum(lists, name) == 0
  {
    if lists != [] { UnmentionedIsZero(lists[..|lists| - 1], name); }
  }

  lemma EffectiveMore(containers: seq<Quantities>, inits: seq<Quantities>, n: nat)
    requires n < |inits|
    ensures Effective(containers, inits[..n + 1]) == Merged(Larger, Effective(containers, inits[..n]), inits[n], inits[n].Keys)
  {
    assert inits[..n + 1][..n] == inits[..n];
  }

  /** The pod's effective requests and limits. */
  method PodRequestsAndLimits(pod: Pod) returns (reqs: Quantities, limits: Quantities)
    ensures reqs == PodRequests(pod) && limits == PodLimits(pod)
  {
    var r := new ResourceList();
    var l := new ResourceList();
    ghost var cr, cl, ir, il := Requests(pod.containers), Limits(pod.containers), Requests(pod.initContainers), Limits(pod.initContainers);
    for i := 0 to |pod.containers|
      invariant r.list == Sums(cr[..i]) && l.list == Sums(cl[..i])
    {
      SumsMore(cr, i);
      SumsMore(cl, i);
      r.Add(pod.containers[i].requests);
      l.Add(pod.containers[i].limits);
    }
    assert cr[..|cr|] == cr && cl[..|cl|] == cl;
    assert Effective(cr, ir[..0]) == Sums(cr) && Effective(cl, il[..0]) == Sums(cl);
    for i := 0 to |pod.initContainers|
      invariant r.list == Effective(cr, ir[..i]) && l.list == Effective(cl, il[..i])
    {
      EffectiveMore(cr, ir, i);
      EffectiveMore(cl, il, i);
      r.Raise(pod.initContainers[i].requests);
      l.Raise(pod.initContainers[i].limits);
    }
    assert ir[..|ir|] == ir && il[..|il|] == il;
    reqs, limits := r.list, l.list;
  }

  /** The node's totals: for each name the sum over the pods that mention it. */
  method PodsTotalRequestsAndLimits(pods: seq<Pod>) returns (reqs: Quantities, limits: Quantities)
    ensures reqs == Sums(Mapped(PodRequests, pods)) && limits == Sums(Mapped(PodLimits, pods))
  {
    var r := new ResourceList();
    var l := new ResourceList();
    ghost var pr, pl := Mapped(PodRequests, pods), Mapped(PodLimits, pods);
    for i := 0 to |pods|
      invariant r.list == Sums(pr[..i]) && l.list == Sums(pl[..i])
    {
      SumsMore(pr, i);
      SumsMore(pl, i);
      var podReqs, podLimits := PodRequestsAndLimits(pods[i]);
      r.Add(podReqs);
      l.Add(podLimits);
    }
    assert pr[..|pr|] == pr && pl[..|pl|] == pl;
    reqs, limits := r.list, l.list;
  }

  // The order of the pods does not matter.

  function Drop<T>(s: seq<T>, i: nat): seq<T>
    requires i < |s|
  {
    s[..i] + s[i + 1..]
  }

  lemma {:induction false} SumDrop(lists: seq<Quantities>, i: nat, name: string)
    requires i < |lists|
    ensures Sum(lists, name) == Sum(Drop(lists, i), name) + Amount(lists[i], name)
    ensures Names(lists) == Names(Drop(lists, i)) + lists[i].Keys
  {
    var n := |lists| - 1;
    if i == n {
      assert Drop(lists, i) == lists[..n];
    } else {
      SumDrop(lists[..n], i, name);
      assert Drop(lists, i)[..n - 1] == Drop(lists[..n], i);
    }
  }

  /** Where the last element of a sequence stands in a permutation of it. */
  lemma MatchLast<T>(a: seq<T>, b: seq<T>) returns (i: nat)
    requires multiset(a) == multiset(b) && a != []
    ensures i < |b| && b[i] == a[|a| - 1] && multiset(Drop(b, i)) == multiset(a[..|a| - 1])
  {
    var x := a[|a| - 1];
    LastSplit(a);
    assert multiset(a) == multiset(a[..|a| - 1]) + multiset{x};
    assert x in multiset(b);
    i :| 0 <= i < |b| && b[i] == x;
    DropOne(b, i);
    assert multiset(a[..|a| - 1]) == multiset(a) - multiset{x};
  }

  lemma DropOne<T>(s: seq<T>, i: nat)
    requires i < |s|
    ensures multiset(Drop(s, i)) == multiset(s) - multiset{s[i]}
  {
    assert s == s[..i] + [s[i]] + s[i + 1..];
    assert multiset(s) == multiset(Drop(s, i)) + multiset{s[i]};
  }

  lemma MappedParts<T>(f: T -> Quantities, s: seq<T>, i: nat)
    requires i < |s|
    ensures multiset(Mapped(f, s)) == multiset(Mapped(f, Drop(s, i))) + multiset{f(s[i])}
  {
    var front, back := Mapped(f, s[..i]), Mapped(f, s[i + 1..]);
    assert Mapped(f, s) == front + [f(s[i])] + back;
    assert Mapped(f, Drop(s, i)) == front + back;
  }

  lemma {:induction false} SumOfPermutation(a: seq<Quantities>, b: seq<Quantities>, name: string)
    requires multiset(a) == multiset(b)
    ensures Names(a) == Names(b) && Sum(a, name) == Sum(b, name)
  {
    if a == [] {
      assert |b| == |multiset(b)| == 0;
    } else {
      var n := |a| - 1;
      var i := MatchLast(a, b);
      SumOfPermutation(a[..n], Drop(b, i), name);
      SumDrop(b, i, name);
    }
  }

  lemma {:induction false} MappedPermutation<T>(f: T -> Quantities, a: seq<T>, b: seq<T>)
    requires multiset(a) == multiset(b)
    ensures multiset(Mapped(f, a)) == multiset(Mapped(f, b))
  {
    if a == [] {
      assert |b| == |multiset(b)| == 0;
    } else {
      var n := |a| - 1;
      var i := MatchLast(a, b);
      MappedPermutation(f, a[..n], Drop(b, i));
      MappedParts(f, b, i);
      MappedParts(f, a, n);
      assert Drop(a, n) == a[..n];
    }
  }

  /** Listing the pods in another order gives the same totals. */
  lemma TotalsIgnoreOrder(f: Pod -> Quantities, pods: seq<Pod>, others: seq<Pod>)
    requires multiset(pods) == multiset(others)
    ensures Sums(Mapped(f, pods)) == Sums(Mapped(f, others))
  {
    var a, b := Mapped(f, pods), Mapped(f, others);
    MappedPermutation(f, pods, others);
    SumOfPermutation(a, b, "");
    forall name | name in Names(a) ensures Sum(a, name) == Sum(b, name) {
      SumOfPermutation(a, b, name);
    }
  }
}
