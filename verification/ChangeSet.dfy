/** Staging the actions of a sync, ordering them, and running them through
    kubectl with its batch-then-single fallback.
    Models Cluster.Sync and ChangeSet of pkg/kubernetes/kubernetes.go and apply,
    applyOrder and rankOfKind of pkg/kubectl/kubectl.go. Running kubectl is an
    oracle: invocation n succeeds or fails. */
module ChangeSets {
  import opened Common
  import opened ResourceKeys
  import opened Labels
  import opened Certificates

  /** A resource with the kind and name that parseObj finds in its bytes. */
  datatype ApiObject = ApiObject(kind: string, name: string, resource: Resource)

  datatype SyncAction = SyncAction(delete: Option<Resource>, apply: Option<Resource>)

  /** parseObj: the object in a resource's bytes, if they parse. */
  type Parser = Resource -> Option<(string, string)>

  // ----- Staging -----

  datatype Staging = Staging(deletes: seq<ApiObject>, applies: seq<ApiObject>, errors: seq<Resource>)

  function Parse(parse: Parser, r: Resource): Option<ApiObject> {
    match parse(r)
    case None => None
    case Some((kind, name)) => Some(ApiObject(kind, name, r))
  }

  /** Cluster.Sync up to the call of the applier: the two stages of every
      action, a parse error ending the action. */
  method Stage(actions: seq<SyncAction>, parse: Parser) returns (s: Staging)
    ensures s == StageAll(actions, parse)
  {
    s := Staging([], [], []);
    for i := 0 to |actions|
      invariant s == StageAll(actions[..i], parse)
    {
      assert actions[..i + 1][..i] == actions[..i];
      var failed := false;
      if actions[i].delete.Some? {
        var obj := Parse(parse, actions[i].delete.value);
        if obj.Some? { s := s.(deletes := s.deletes + [obj.value]); }
        else { s, failed := s.(errors := s.errors + [actions[i].delete.value]), true; }
      }
      if !failed && actions[i].apply.Some? {
        var obj := Parse(parse, actions[i].apply.value);
        if obj.Some? { s := s.(applies := s.applies + [obj.value]); }
        else { s := s.(errors := s.errors + [actions[i].apply.value]); }
      }
    }
    assert actions[..|actions|] == actions;
  }

  function StageOne(s: Staging, a: SyncAction, parse: Parser): Staging {
    if a.delete.Some? && Parse(parse, a.delete.value).None? then s.(errors := s.errors + [a.delete.value])
    else
      var s := if a.delete.Some? then s.(deletes := s.deletes + [Parse(parse, a.delete.value).value]) else s;
      if a.apply.None? then s
      else if Parse(parse, a.apply.value).None? then s.(errors := s.errors + [a.apply.value])
      else s.(applies := s.applies + [Parse(parse, a.apply.value).value])
  }

  function StageAll(actions: seq<SyncAction>, parse: Parser): Staging {
    if actions == [] then Staging([], [], [])
    else StageOne(StageAll(actions[..|actions| - 1], parse), actions[|actions| - 1], parse)
  }

  /** The action sets one of its two fields, as the sync code makes them. */
  predicate OneOf(a: SyncAction) {
    a.delete.Some? != a.apply.Some?
  }

  function Target(a: SyncAction): Resource
    requires OneOf(a)
  {
    if a.delete.Some? then a.delete.value else a.apply.value
  }

  function Targets(actions: seq<SyncAction>): seq<Resource>
    requires forall a :: a in actions ==> OneOf(a)
  {
    seq(|actions|, i requires 0 <= i < |actions| => assert actions[i] in actions; Target(actions[i]))
  }

  function Staged(objs: seq<ApiObject>): seq<Resource> {
    seq(|objs|, i requires 0 <= i < |objs| => objs[i].resource)
  }

  /** The staging accounts for exactly these resources: each staged once or
      reported once, and reported only if it does not parse. */
  ghost predicate Accounts(s: Staging, targets: multiset<Resource>, parse: Parser) {
    && targets == multiset(Staged(s.deletes)) + multiset(Staged(s.applies)) + multiset(s.errors)
    && (forall r :: r in s.errors ==> parse(r).None?)
    && (forall o :: o in s.deletes ==> Parse(parse, o.resource) == Some(o))
    && (forall o :: o in s.applies ==> Parse(parse, o.resource) == Some(o))
  }

  lemma StagedMore(objs: seq<ApiObject>, o: ApiObject)
    ensures multiset(Staged(objs + [o])) == multiset(Staged(objs)) + multiset{o.resource}
  {
    assert Staged(objs + [o]) == Staged(objs) + [o.resource];
  }

  lemma AccountsMore(s: Staging, targets: multiset<Resource>, a: SyncAction, parse: Parser)
    requires Accounts(s, targets, parse) && OneOf(a)
    ensures Accounts(StageOne(s, a, parse), targets + multiset{Target(a)}, parse)
  {
    var obj := Parse(parse, Target(a));
    if obj.Some? {
      StagedMore(if a.delete.Some? then s.deletes else s.applies, obj.value);
    }
  }

  lemma {:induction false} StagedOnce(actions: seq<SyncAction>, parse: Parser)
    requires forall a :: a in actions ==> OneOf(a)
    ensures Accounts(StageAll(actions, parse), multiset(Targets(actions)), parse)
  {
    if actions != [] {
      var n := |actions| - 1;
      StagedOnce(actions[..n], parse);
      assert actions[n] in actions;
      AccountsMore(StageAll(actions[..n], parse), multiset(Targets(actions[..n])), actions[n], parse);
      assert Targets(actions) == Targets(actions[..n]) + [Target(actions[n])];
    }
  }

  /** What is staged under each command is what the actions ask for, as far as it parses. */
  lemma {:induction false} StagedAre(actions: seq<SyncAction>, parse: Parser, o: ApiObject)
    requires forall a :: a in actions ==> OneOf(a)
    ensures o in StageAll(actions, parse).deletes <==>
              exists a :: a in actions && a.delete.Some? && Parse(parse, a.delete.value) == Some(o)
    ensures o in StageAll(actions, parse).applies <==>
              exists a :: a in actions && a.apply.Some? && Parse(parse, a.apply.value) == Some(o)
  {
    if actions != [] {
      var n := |actions| - 1;
      StagedAre(actions[..n], parse, o);
      LastSplit(actions);
      assert OneOf(actions[n]);
    }
  }

  /** What is reported is what does not parse. */
  lemma {:induction false} ErrorsAre(actions: seq<SyncAction>, parse: Parser, r: Resource)
    requires forall a :: a in actions ==> OneOf(a)
    ensures r in StageAll(actions, parse).errors <==> parse(r).None? && exists i :: 0 <= i < |actions| && IsTarget(actions[i], r)
  {
    if actions != [] {
      var n := |actions| - 1;
      var front := actions[..n];
      ErrorsAre(front, parse, r);
      assert OneOf(actions[n]);
      assert (exists i :: 0 <= i < |actions| && IsTarget(actions[i], r)) <==>
             (exists i :: 0 <= i < |front| && IsTarget(front[i], r)) || IsTarget(actions[n], r)
      by {
        if i :| 0 <= i < |front| && IsTarget(front[i], r) { assert IsTarget(actions[i], r); }
        if i :| 0 <= i < |actions| && IsTarget(actions[i], r) { if i < n { assert IsTarget(front[i], r); } }
      }
    }
  }

  predicate IsTarget(a: SyncAction, r: Resource) {
    OneOf(a) && Target(a) == r
  }

  // ----- Order -----

  /** rankOfKind: the layer of a kind in the dependency order. */
  function Rank(kind: string): nat {
    if kind == "Namespace" then 0
    else if kind in {"ServiceAccount", "ClusterRole", "Role", "PersistentVolume", "Service"} then 1
    else if kind in {"ResourceQuota", "LimitRange", "Secret", "ConfigMap", "RoleBinding", "ClusterRoleBinding",
                     "PersistentVolumeClaim", "Ingress"} then 2
    else if kind in {"DaemonSet", "Deployment", "ReplicationController", "ReplicaSet", "Job", "CronJob", "StatefulSet"} then 3
    else 4
  }

  predicate StringLess(a: string, b: string) {
    b != "" && (a == "" || a[0] < b[0] || (a[0] == b[0] && StringLess(a[1..], b[1..])))
  }

  predicate Less(x: ApiObject, y: ApiObject) {
    if Rank(x.kind) == Rank(y.kind) then StringLess(x.name, y.name) else Rank(x.kind) < Rank(y.kind)
  }

  lemma {:induction false} NotLessTransitive(a: string, b: string, c: string)
    requires !StringLess(b, a) && !StringLess(c, b)
    ensures !StringLess(c, a)
  {
    if a != "" && b != "" && c != "" && a[0] == b[0] == c[0] { NotLessTransitive(a[1..], b[1..], c[1..]); }
  }

  lemma {:induction false} LessAsymmetric(a: string, b: string)
    requires StringLess(a, b)
    ensures !StringLess(b, a)
  {
    if a != "" && a[0] == b[0] { LessAsymmetric(a[1..], b[1..]); }
  }

  /** `x` may stand before `y` in the (possibly reversed) order. */
  predicate InOrder(x: ApiObject, y: ApiObject, reversed: bool) {
    if reversed then !Less(x, y) else !Less(y, x)
  }

  ghost predicate Sorted(objs: seq<ApiObject>, reversed: bool) {
    forall i, j :: 0 <= i < j < |objs| ==> InOrder(objs[i], objs[j], reversed)
  }

  lemma InOrderTransitive(x: ApiObject, y: ApiObject, z: ApiObject, reversed: bool)
    requires InOrder(x, y, reversed) && InOrder(y, z, reversed)
    ensures InOrder(x, z, reversed)
  {
    if Rank(x.kind) == Rank(y.kind) == Rank(z.kind) {
      if reversed { NotLessTransitive(z.name, y.name, x.name); } else { NotLessTransitive(x.name, y.name, z.name); }
    }
  }

  lemma InOrderTotal(x: ApiObject, y: ApiObject, reversed: bool)
    ensures InOrder(x, y, reversed) || InOrder(y, x, reversed)
  {
    if StringLess(x.name, y.name) { LessAsymmetric(x.name, y.name); }
  }

  /** sort.Sort, plain or over sort.Reverse: callers may rely on a sorted
      permutation and nothing else. */
  method Sort(objs: seq<ApiObject>, reversed: bool) returns (r: seq<ApiObject>)
    ensures multiset(r) == multiset(objs) && Sorted(r, reversed)
  {
    r := [];
    for i := 0 to |objs|
      invariant multiset(r) == multiset(objs[..i]) && Sorted(r, reversed)
    {
      assert objs[..i + 1] == objs[..i] + [objs[i]];
      r := Insert(r, objs[i], reversed);
    }
    assert objs[..|objs|] == objs;
  }

  method Insert(objs: seq<ApiObject>, o: ApiObject, reversed: bool) returns (r: seq<ApiObject>)
    requires Sorted(objs, reversed)
    ensures multiset(r) == multiset(objs) + multiset{o} && Sorted(r, reversed)
  {
    var k := |objs|;
    while k > 0 && !InOrder(objs[k - 1], o, reversed)
      invariant 0 <= k <= |objs|
      invariant forall j :: k <= j < |objs| ==> InOrder(o, objs[j], reversed)
    {
      k := k - 1;
      InOrderTotal(objs[k], o, reversed);
    }
    forall j | 0 <= j < k ensures InOrder(objs[j], o, reversed) {
      if j < k - 1 { InOrderTransitive(objs[j], objs[k - 1], o, reversed); }
    }
    r := objs[..k] + [o] + objs[k..];
    SortedSplice(objs, k, o, reversed);
  }

  lemma SortedSplice(objs: seq<ApiObject>, k: nat, o: ApiObject, reversed: bool)
    requires k <= |objs| && Sorted(objs, reversed)
    requires forall j :: 0 <= j < k ==> InOrder(objs[j], o, reversed)
    requires forall j :: k <= j < |objs| ==> InOrder(o, objs[j], reversed)
    ensures var r := objs[..k] + [o] + objs[k..];
            multiset(r) == multiset(objs) + multiset{o} && Sorted(r, reversed)
  {
    assert objs[..k] + objs[k..] == objs;
    var r := objs[..k] + [o] + objs[k..];
    forall i, j | 0 <= i < j < |r| ensures InOrder(r[i], r[j], reversed) {
      assert r[i] == if i < k then objs[i] else if i == k then o else objs[i - 1];
      assert r[j] == if j < k then objs[j] else if j == k then o else objs[j - 1];
    }
  }

  // ----- The order, by kinds and names -----

  /** Character by character: a prefix of b, or smaller where they first differ. */
  ghost predicate Ascends(a: string, b: string) {
    exists k :: 0 <= k <= |a| && k <= |b| && a[..k] == b[..k] && (k == |a| || (k < |b| && a[k] < b[k]))
  }

  lemma {:induction false} NotLessIsAscending(a: string, b: string)
    ensures !StringLess(b, a) <==> Ascends(a, b)
  {
    if a == "" {
      assert a[..0] == b[..0];
    } else if b == "" {
      assert !Ascends(a, b);
    } else {
      NotLessIsAscending(a[1..], b[1..]);
      AscendsStep(a, b);
    }
  }

  lemma AscendsStep(a: string, b: string)
    requires a != "" && b != ""
    ensures Ascends(a, b) <==> a[0] < b[0] || (a[0] == b[0] && Ascends(a[1..], b[1..]))
  {
    if a[0] == b[0] && Ascends(a[1..], b[1..]) {
      var k :| 0 <= k <= |a[1..]| && k <= |b[1..]| && a[1..][..k] == b[1..][..k] && (k == |a[1..]| || (k < |b[1..]| && a[1..][k] < b[1..][k]));
      assert a[..k + 1] == [a[0]] + a[1..][..k] && b[..k + 1] == [b[0]] + b[1..][..k];
      assert Ascends(a, b);
    }
    if a[0] < b[0] {
      assert a[..0] == b[..0];
      assert Ascends(a, b);
    }
    if k :| 0 <= k <= |a| && k <= |b| && a[..k] == b[..k] && (k == |a| || (k < |b| && a[k] < b[k])) {
      if k > 0 {
        assert a[..k][0] == b[..k][0];
        assert a[1..][..k - 1] == a[..k][1..] && b[1..][..k - 1] == b[..k][1..];
        assert Ascends(a[1..], b[1..]);
      }
    }
  }

  /** An object of kind x may stand before one of kind y: nothing stands before a
      namespace but another; nothing that depends on a basic or storing kind before
      it; and listed kinds stand before all others. */
  predicate KindMayPrecede(x: string, y: string) {
    && (y == "Namespace" ==> x == "Namespace")
    && (y in {"ServiceAccount", "ClusterRole", "Role", "PersistentVolume", "Service"} ==>
          x in {"Namespace", "ServiceAccount", "ClusterRole", "Role", "PersistentVolume", "Service"})
    && (y in {"ResourceQuota", "LimitRange", "Secret", "ConfigMap", "RoleBinding", "ClusterRoleBinding",
              "PersistentVolumeClaim", "Ingress"} ==>
          x in {"Namespace", "ServiceAccount", "ClusterRole", "Role", "PersistentVolume", "Service", "ResourceQuota", "LimitRange",
                "Secret", "ConfigMap", "RoleBinding", "ClusterRoleBinding", "PersistentVolumeClaim", "Ingress"})
    && (y in {"DaemonSet", "Deployment", "ReplicationController", "ReplicaSet", "Job", "CronJob", "StatefulSet"} ==> Listed(x))
  }

  predicate Listed(kind: string) {
    kind in {"Namespace", "ServiceAccount", "ClusterRole", "Role", "PersistentVolume", "Service", "ResourceQuota", "LimitRange",
             "Secret", "ConfigMap", "RoleBinding", "ClusterRoleBinding", "PersistentVolumeClaim", "Ingress",
             "DaemonSet", "Deployment", "ReplicationController", "ReplicaSet", "Job", "CronJob", "StatefulSet"}
  }

  /** Of every two objects, the kind of the first may precede that of the second,
      and if the other way round would do as well, the names ascend. */
  ghost predicate DependencyOrder(objs: seq<ApiObject>) {
    forall i, j :: 0 <= i < j < |objs| ==>
      && KindMayPrecede(objs[i].kind, objs[j].kind)
      && (KindMayPrecede(objs[j].kind, objs[i].kind) ==> Ascends(objs[i].name, objs[j].name))
  }

  ghost predicate ReverseDependencyOrder(objs: seq<ApiObject>) {
    forall i, j :: 0 <= i < j < |objs| ==>
      && KindMayPrecede(objs[j].kind, objs[i].kind)
      && (KindMayPrecede(objs[i].kind, objs[j].kind) ==> Ascends(objs[j].name, objs[i].name))
  }

  lemma RanksAreLayers(x: string, y: string)
    ensures Rank(x) <= Rank(y) <==> KindMayPrecede(x, y)
  {
  }

  lemma SortedMeans(objs: seq<ApiObject>, reversed: bool)
    requires Sorted(objs, reversed)
    ensures if reversed then ReverseDependencyOrder(objs) else DependencyOrder(objs)
  {
    forall i, j | 0 <= i < j < |objs|
      ensures var x, y := if reversed then objs[j] else objs[i], if reversed then objs[i] else objs[j];
        KindMayPrecede(x.kind, y.kind) && (KindMayPrecede(y.kind, x.kind) ==> Ascends(x.name, y.name))
    {
      var x, y := if reversed then objs[j] else objs[i], if reversed then objs[i] else objs[j];
      assert InOrder(objs[i], objs[j], reversed);
      RanksAreLayers(x.kind, y.kind);
      RanksAreLayers(y.kind, x.kind);
      NotLessIsAscending(x.name, y.name);
    }
  }

  // ----- Running the commands -----

  datatype Command = Delete | Apply

  datatype Invocation = Batch(cmd: Command, objs: seq<ApiObject>) | Single(cmd: Command, obj: ApiObject)

  /** Whether the n-th kubectl invocation of a sync succeeds. */
  type Outcomes = nat -> bool

  function Singles(cmd: Command, objs: seq<ApiObject>): seq<Invocation> {
    seq(|objs|, i requires 0 <= i < |objs| => Single(cmd, objs[i]))
  }

  /** The invocations for one list, the first being invocation n. */
  function Invocations(objs: seq<ApiObject>, cmd: Command, ok: Outcomes, n: nat): seq<Invocation> {
    if objs == [] then [] else if ok(n) then [Batch(cmd, objs)] else [Batch(cmd, objs)] + Singles(cmd, objs)
  }

  /** One batch, and only after a failed batch every object once more by itself. */
  lemma InvocationsAre(objs: seq<ApiObject>, cmd: Command, ok: Outcomes, n: nat)
    ensures var t := Invocations(objs, cmd, ok, n);
      && (objs == [] ==> t == [])
      && (objs != [] ==> t != [] && t[0] == Batch(cmd, objs) && |t| == if ok(n) then 1 else 1 + |objs|)
      && (forall i :: 1 <= i < |t| ==> t[i] == Single(cmd, objs[i - 1]))
      && (forall inv :: inv in t ==> inv.cmd == cmd)
  {
  }

  /** The objects whose own command, invocation n + their position, fails. */
  function Failures(objs: seq<ApiObject>, ok: Outcomes, n: nat): seq<ApiObject> {
    if objs == [] then []
    else
      var last := |objs| - 1;
      Failures(objs[..last], ok, n) + if ok(n + last) then [] else [objs[last]]
  }

  /** The objects reported for one list. */
  function Reported(objs: seq<ApiObject>, ok: Outcomes, n: nat): seq<ApiObject> {
    if objs == [] || ok(n) then [] else Failures(objs, ok, n + 1)
  }

  /** The closure f of apply: one batch, and after a failed batch every object alone. */
  method Run(objs: seq<ApiObject>, cmd: Command, trace: seq<Invocation>, ok: Outcomes)
    returns (trace': seq<Invocation>, errs: seq<ApiObject>)
    ensures trace' == trace + Invocations(objs, cmd, ok, |trace|)
    ensures errs == Reported(objs, ok, |trace|)
  {
    trace', errs := trace, [];
    if objs == [] { return; }
    trace' := trace' + [Batch(cmd, objs)];
    if ok(|trace|) { return; }
    for i := 0 to |objs|
      invariant trace' == trace + ([Batch(cmd, objs)] + Singles(cmd, objs[..i]))
      invariant errs == Failures(objs[..i], ok, |trace| + 1)
    {
      assert objs[..i + 1][..i] == objs[..i];
      assert Singles(cmd, objs[..i + 1]) == Singles(cmd, objs[..i]) + [Single(cmd, objs[i])];
      if !ok(|trace'|) { errs := errs + [objs[i]]; }
      trace' := trace' + [Single(cmd, objs[i])];
    }
    assert objs[..|objs|] == objs;
  }

  /** Kubectl.apply: all deletes, in reverse dependency order, before all
      applies, in dependency order. */
  method KubectlApply(deletes: seq<ApiObject>, applies: seq<ApiObject>, ok: Outcomes)
    returns (d: seq<ApiObject>, a: seq<ApiObject>, trace: seq<Invocation>, errs: seq<ApiObject>)
    ensures multiset(d) == multiset(deletes) && Sorted(d, true)
    ensures multiset(a) == multiset(applies) && Sorted(a, false)
    ensures DependencyOrder(a) && ReverseDependencyOrder(d)
    ensures forall i, j :: 0 <= i < j < |trace| && trace[j].cmd == Delete ==> trace[i].cmd == Delete
    ensures var first := Invocations(d, Delete, ok, 0);
            && trace == first + Invocations(a, Apply, ok, |first|)
            && errs == Reported(d, ok, 0) + Reported(a, ok, |first|)
  {
    d := Sort(deletes, true);
    var first, failed := Run(d, Delete, [], ok);
    assert first == Invocations(d, Delete, ok, 0);
    a := Sort(applies, false);
    trace, errs := Run(a, Apply, first, ok);
    errs := failed + errs;
    InvocationsAre(d, Delete, ok, 0);
    InvocationsAre(a, Apply, ok, |first|);
    SortedMeans(d, true);
    SortedMeans(a, false);
  }

  /** An object is reported exactly when the batch failed and its own command failed. */
  lemma ReportedIffFailed(objs: seq<ApiObject>, ok: Outcomes, n: nat, o: ApiObject)
    ensures o in Reported(objs, ok, n) <==> !ok(n) && exists i :: 0 <= i < |objs| && objs[i] == o && !ok(n + 1 + i)
  {
    FailuresAre(objs, ok, n + 1, o);
  }

  lemma {:induction false} FailuresAre(objs: seq<ApiObject>, ok: Outcomes, n: nat, o: ApiObject)
    ensures o in Failures(objs, ok, n) <==> exists i :: 0 <= i < |objs| && objs[i] == o && !ok(n + i)
  {
    if objs != [] {
      var last := |objs| - 1;
      FailuresAre(objs[..last], ok, n, o);
      FailsMore(objs, ok, n, o);
    }
  }

  lemma FailsMore(objs: seq<ApiObject>, ok: Outcomes, n: nat, o: ApiObject)
    requires objs != []
    ensures var last := |objs| - 1;
      (exists i :: 0 <= i < |objs| && objs[i] == o && !ok(n + i)) <==>
      (exists i :: 0 <= i < last && objs[..last][i] == o && !ok(n + i)) || (objs[last] == o && !ok(n + last))
  {
    var last := |objs| - 1;
    if i :| 0 <= i < last && objs[..last][i] == o && !ok(n + i) {
      assert objs[i] == o;
    }
    if i :| 0 <= i < |objs| && objs[i] == o && !ok(n + i) {
      if i < last { assert objs[..last][i] == o; }
    }
  }

  // ----- What the commands do to the cluster -----

  /** The objects of a namespace, by resource ID. */
  type Cluster = map<string, Manifest>

  function ObjectKey(o: ApiObject): string {
    Key(o.kind, o.name)
  }

  function ObjectKeys(objs: seq<ApiObject>): set<string> {
    set o | o in objs :: ObjectKey(o)
  }

  /** The manifests of a list by key, a later object replacing an earlier one. */
  function Table(objs: seq<ApiObject>): Cluster {
    if objs == [] then map[]
    else var last := objs[|objs| - 1]; Table(objs[..|objs| - 1])[ObjectKey(last) := last.resource.manifest]
  }

  function Effect(c: Cluster, cmd: Command, objs: seq<ApiObject>): Cluster {
    match cmd
    case Delete => c - ObjectKeys(objs)
    case Apply => c + Table(objs)
  }

  /** A successful invocation does all it was told; a failed batch does it for
      an arbitrary part `done` of its objects; a failed single does nothing. */
  function Perform(c: Cluster, inv: Invocation, ok: bool, done: seq<ApiObject>): Cluster {
    match inv
    case Batch(cmd, objs) => Effect(c, cmd, if ok then objs else done)
    case Single(cmd, obj) => if ok then Effect(c, cmd, [obj]) else c
  }

  function PerformAll(c: Cluster, trace: seq<Invocation>, ok: Outcomes, n: nat, done: seq<ApiObject>): Cluster {
    if trace == [] then c
    else
      var last := |trace| - 1;
      Perform(PerformAll(c, trace[..last], ok, n, done), trace[last], ok(n + last), done)
  }

  lemma {:induction false} TableKeys(objs: seq<ApiObject>)
    ensures Table(objs).Keys == ObjectKeys(objs)
  {
    if objs != [] {
      var last := |objs| - 1;
      TableKeys(objs[..last]);
      assert objs == objs[..last] + [objs[last]];
      assert ObjectKeys(objs) == ObjectKeys(objs[..last]) + {ObjectKey(objs[last])};
    }
  }

  lemma EffectMore(c: Cluster, cmd: Command, objs: seq<ApiObject>, o: ApiObject)
    ensures Effect(Effect(c, cmd, objs), cmd, [o]) == Effect(c, cmd, objs + [o])
  {
    assert (objs + [o])[..|objs|] == objs;
    assert Table([o]) == map[ObjectKey(o) := o.resource.manifest];
    assert ObjectKeys(objs + [o]) == ObjectKeys(objs) + ObjectKeys([o]);
  }

  /** Doing part of a list first changes nothing once the whole list is done. */
  lemma EffectAbsorbs(c: Cluster, cmd: Command, objs: seq<ApiObject>, done: seq<ApiObject>)
    requires forall o :: o in done ==> o in objs
    ensures Effect(Effect(c, cmd, done), cmd, objs) == Effect(c, cmd, objs)
  {
    assert ObjectKeys(done) <= ObjectKeys(objs);
    if cmd == Apply {
      TableKeys(objs);
      TableKeys(done);
      assert c + Table(done) + Table(objs) == c + Table(objs);
    }
  }

  lemma {:induction false} SinglesDoAll(c: Cluster, cmd: Command, objs: seq<ApiObject>, ok: Outcomes, n: nat, done: seq<ApiObject>)
    requires Failures(objs, ok, n) == []
    ensures PerformAll(c, Singles(cmd, objs), ok, n, done) == Effect(c, cmd, objs)
  {
    if objs == [] {
      assert Effect(c, cmd, []) == c;
    } else {
      var last := |objs| - 1;
      var all := Singles(cmd, objs);
      assert ok(n + last) && Failures(objs[..last], ok, n) == [];
      SinglesDoAll(c, cmd, objs[..last], ok, n, done);
      assert all[..last] == Singles(cmd, objs[..last]) && all[last] == Single(cmd, objs[last]);
      PerformLast(c, all, ok, n, done, objs[last]);
      LastEffect(c, cmd, objs);
    }
  }

  lemma PerformLast(c: Cluster, trace: seq<Invocation>, ok: Outcomes, n: nat, done: seq<ApiObject>, o: ApiObject)
    requires trace != [] && ok(n + |trace| - 1) && trace[|trace| - 1].Single? && trace[|trace| - 1].obj == o
    ensures PerformAll(c, trace, ok, n, done) ==
            Effect(PerformAll(c, trace[..|trace| - 1], ok, n, done), trace[|trace| - 1].cmd, [o])
  {
  }

  lemma LastEffect(c: Cluster, cmd: Command, objs: seq<ApiObject>)
    requires objs != []
    ensures Effect(Effect(c, cmd, objs[..|objs| - 1]), cmd, [objs[|objs| - 1]]) == Effect(c, cmd, objs)
  {
    EffectMore(c, cmd, objs[..|objs| - 1], objs[|objs| - 1]);
    LastSplit(objs);
  }

  lemma {:induction false} PerformAllSplits(c: Cluster, a: seq<Invocation>, b: seq<Invocation>, ok: Outcomes, n: nat, done: seq<ApiObject>)
    ensures PerformAll(c, a + b, ok, n, done) == PerformAll(PerformAll(c, a, ok, n, done), b, ok, n + |a|, done)
  {
    if b == [] {
      assert a + b == a;
    } else {
      var last := |b| - 1;
      var all := a + b;
      assert all[..|all| - 1] == a + b[..last] && all[|all| - 1] == b[last];
      PerformAllSplits(c, a, b[..last], ok, n, done);
    }
  }

  /** A list with no reported error was carried out in full, whatever part of a
      failed batch had already been carried out. */
  lemma NoErrorsMeansDone(c: Cluster, cmd: Command, objs: seq<ApiObject>, ok: Outcomes, n: nat, done: seq<ApiObject>)
    requires Reported(objs, ok, n) == [] && forall o :: o in done ==> o in objs
    ensures PerformAll(c, Invocations(objs, cmd, ok, n), ok, n, done) == Effect(c, cmd, objs)
  {
    if objs == [] {
      assert Effect(c, cmd, []) == c;
    } else {
      var batch := [Batch(cmd, objs)];
      assert PerformAll(c, batch, ok, n, done) == Effect(c, cmd, if ok(n) then objs else done);
      if !ok(n) {
        PerformAllSplits(c, batch, Singles(cmd, objs), ok, n, done);
        SinglesDoAll(Effect(c, cmd, done), cmd, objs, ok, n + 1, done);
        EffectAbsorbs(c, cmd, objs, done);
      }
    }
  }

  /** With pairwise different keys, the effect of a list does not depend on its order. */
  lemma {:induction false} TableAt(objs: seq<ApiObject>, o: ApiObject)
    requires o in objs
    requires forall p, q :: p in objs && q in objs && ObjectKey(p) == ObjectKey(q) ==> p == q
    ensures ObjectKey(o) in Table(objs) && Table(objs)[ObjectKey(o)] == o.resource.manifest
  {
    var last := |objs| - 1;
    if ObjectKey(o) != ObjectKey(objs[last]) {
      assert o in objs[..last];
      TableAt(objs[..last], o);
    }
  }
}
