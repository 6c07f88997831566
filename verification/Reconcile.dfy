/** A sync round as a step on (repository, sync tag, cluster), and runs of
    rounds. Models Load of pkg/kubernetes/resource/load.go and doSync, Sync and
    prepareSyncDelete of pkg/gitops/gitops_sync.go. Git is a map from revisions
    to file trees; decoding a file is a parameter. */
module Reconcile {
  import opened Common
  import opened ResourceKeys
  import opened Labels
  import opened Certificates
  import opened ChangeSets

  type Content = string

  /** The files of one revision. */
  type Tree = map<string, Content>

  /** What a file contributes: for a .yaml or .yml file what ParseMultidoc makes
      of its content (manifests by resource ID), nothing for other files. None
      means that the file does not parse. */
  type FileParser = (string, Content) -> Option<map<string, Manifest>>

  /** The environment of a namespace's sync. */
  datatype Env = Env(settings: Settings, namespace: string, docs: FileParser, history: string -> Tree)

  // ----- Loading -----

  predicate Defines(env: Env, tree: Tree, path: string, id: string) {
    path in tree && env.docs(path, tree[path]).Some? && id in env.docs(path, tree[path]).value
  }

  /** Every file parses and no ID is defined in two files. */
  ghost predicate Loads(env: Env, tree: Tree) {
    && (forall p :: p in tree ==> env.docs(p, tree[p]).Some?)
    && (forall p, q, id :: Defines(env, tree, p, id) && Defines(env, tree, q, id) ==> p == q)
  }

  function ResourceFrom(path: string, m: Manifest): Resource {
    Resource(path, m.kind, m.name, m, "")
  }

  /** `all` is exactly what the files of a tree define. */
  ghost predicate Loaded(env: Env, tree: Tree, all: Resources) {
    && (forall p, id :: Defines(env, tree, p, id) ==>
          id in all && all[id] == ResourceFrom(p, env.docs(p, tree[p]).value[id]))
    && (forall id :: id in all ==> Defines(env, tree, all[id].source, id))
  }

  /** The inner loop of Load: add the documents of one file, in range order,
      unless one of them is already defined. */
  method Merge(objs: Resources, path: string, docs: map<string, Manifest>, order: seq<string>) returns (r: Option<Resources>)
    requires Distinct(order) && Elements(order) == docs.Keys
    ensures r.Some? <==> docs.Keys !! objs.Keys
    ensures r.Some? ==> r.value == objs + FromFile(path, docs)
  {
    var merged := objs;
    ghost var seen := {};
    assert objs + Part(path, docs, seen) == objs;
    for i := 0 to |order|
      invariant seen == Elements(order[..i]) && seen !! objs.Keys
      invariant merged == objs + Part(path, docs, seen)
    {
      var id := order[i];
      ElementsOfPrefix(order, i);
      PartMore(objs, path, docs, seen, id);
      assert id in Elements(order);
      if id in merged { return None; }
      merged, seen := merged[id := ResourceFrom(path, docs[id])], seen + {id};
    }
    assert order[..|order|] == order;
    assert Part(path, docs, seen) == FromFile(path, docs);
    r := Some(merged);
  }

  ghost function Part(path: string, docs: map<string, Manifest>, seen: set<string>): Resources {
    map id | id in docs && id in seen :: ResourceFrom(path, docs[id])
  }

  lemma PartMore(objs: Resources, path: string, docs: map<string, Manifest>, seen: set<string>, id: string)
    ensures id in docs ==> (objs + Part(path, docs, seen))[id := ResourceFrom(path, docs[id])] == objs + Part(path, docs, seen + {id})
    ensures id in docs && id !in seen ==> (id in objs + Part(path, docs, seen) <==> id in objs)
  {
  }

  function FromFile(path: string, docs: map<string, Manifest>): Resources {
    map id | id in docs :: ResourceFrom(path, docs[id])
  }

  /** Load, over the files in any walk order. */
  method Load(env: Env, tree: Tree, files: seq<string>) returns (r: Option<Resources>)
    requires Distinct(files) && Elements(files) == tree.Keys
    ensures r.Some? <==> Loads(env, tree)
    ensures r.Some? ==> Loaded(env, tree, r.value)
  {
    var objs: Resources := map[];
    ghost var seen: Tree := map[];
    for i := 0 to |files|
      invariant seen.Keys == Elements(files[..i]) && forall p :: p in seen ==> p in tree && seen[p] == tree[p]
      invariant Loads(env, seen) && Loaded(env, seen, objs)
    {
      var path := files[i];
      assert path in Elements(files);
      ElementsOfPrefix(files, i);
      var docs := env.docs(path, tree[path]);
      if docs.None? { return None; }
      var order := AnyOrder(docs.value.Keys);
      var merged := Merge(objs, path, docs.value, order);
      if merged.None? {
        var id :| id in docs.value && id in objs;
        Duplicate(env, tree, seen, path, objs, id);
        return None;
      }
      AddFile(env, seen, path, tree[path], objs);
      objs, seen := merged.value, seen[path := tree[path]];
    }
    assert files[..|files|] == files;
    assert seen == tree;
    r := Some(objs);
  }

  lemma Duplicate(env: Env, tree: Tree, seen: Tree, path: string, objs: Resources, id: string)
    requires Loaded(env, seen, objs) && id in objs && Defines(env, tree, path, id) && path !in seen
    requires forall p :: p in seen ==> p in tree && seen[p] == tree[p]
    ensures !Loads(env, tree)
  {
    var q := objs[id].source;
    assert Defines(env, seen, q, id);
    assert Defines(env, tree, q, id) && q != path;
  }

  lemma AddFile(env: Env, tree: Tree, path: string, content: Content, before: Resources)
    requires Loads(env, tree) && Loaded(env, tree, before) && path !in tree && env.docs(path, content).Some?
    requires env.docs(path, content).value.Keys !! before.Keys
    ensures Loads(env, tree[path := content])
    ensures Loaded(env, tree[path := content], before + FromFile(path, env.docs(path, content).value))
  {
    var more := tree[path := content];
    var docs := env.docs(path, content).value;
    var after := before + FromFile(path, docs);
    forall p, id | Defines(env, more, p, id)
      ensures if p == path then id in docs else Defines(env, tree, p, id) && id in before && id !in docs
    {
      if p != path { assert Defines(env, tree, p, id); }
    }
    forall id | id in after ensures Defines(env, more, after[id].source, id) {
      if id !in docs { assert Defines(env, tree, before[id].source, id); }
    }
  }

  // ----- Rounds -----

  /** How a sync treats a manifest: the key under which it is applied, what is
      applied, which cluster objects count as the agent's own, and which manifests
      take precedence over others with the same key. */
  datatype Policy = Policy(key: Manifest -> string, value: Manifest -> Manifest, managed: Manifest -> bool, first: Manifest -> bool)

  function Wanted(pol: Policy, m: Resources): set<string> {
    set k | k in m :: pol.key(m[k].manifest)
  }

  /** No resource with the same key takes precedence. */
  ghost predicate Prevails(pol: Policy, m: Resources, k: string)
    requires k in m
  {
    pol.first(m[k].manifest) || forall j :: j in m && pol.first(m[j].manifest) ==> pol.key(m[j].manifest) != pol.key(m[k].manifest)
  }

  /** Resources with the same key are applied as the same object. */
  ghost predicate Compatible(pol: Policy, m: Resources) {
    forall j, k :: j in m && k in m && pol.key(m[j].manifest) == pol.key(m[k].manifest) ==>
      pol.value(m[j].manifest) == pol.value(m[k].manifest)
  }

  /** Some resource with the key prevails. */
  lemma SomePrevails(pol: Policy, m: Resources, id: string) returns (k: string)
    requires id in Wanted(pol, m)
    ensures k in m && pol.key(m[k].manifest) == id && Prevails(pol, m, k)
  {
    k :| k in m && pol.key(m[k].manifest) == id;
    if !Prevails(pol, m, k) {
      k :| k in m && pol.first(m[k].manifest) && pol.key(m[k].manifest) == id;
    }
  }

  /** No two resources are applied under the same key. */
  ghost predicate NoClash(pol: Policy, m: Resources) {
    forall j, k :: j in m && k in m && pol.key(m[j].manifest) == pol.key(m[k].manifest) ==> j == k
  }

  /** A round without errors takes cluster `c` to `c'`: managed objects that the
      repository no longer wants are gone, changed resources are applied, and
      everything else is as it was. */
  ghost predicate Rounded(pol: Policy, all: Resources, changed: Resources, c: Cluster, c': Cluster) {
    && (forall k :: k in changed && Prevails(pol, changed, k) ==>
          pol.key(changed[k].manifest) in c' && c'[pol.key(changed[k].manifest)] == pol.value(changed[k].manifest))
    && (forall id :: id !in Wanted(pol, changed) ==>
          (id in c' <==> id in c && (pol.managed(c[id]) ==> id in Wanted(pol, all))))
    && (forall id :: id !in Wanted(pol, changed) && id in c' ==> c'[id] == c[id])
  }

  /** Any round, with or without errors, takes `c` to `c'` within these bounds: it
      removes only managed objects that the repository no longer wants, and
      writes only changed resources, as wanted. */
  ghost predicate Bounded(pol: Policy, all: Resources, changed: Resources, c: Cluster, c': Cluster) {
    && (forall id :: id in c && id !in c' ==> pol.managed(c[id]) && id !in Wanted(pol, all))
    && (forall id :: id in c' && !(id in c && c'[id] == c[id]) ==>
          exists k :: k in changed && pol.key(changed[k].manifest) == id && c'[id] == pol.value(changed[k].manifest))
  }

  /** The cluster holds the resource as wanted. */
  predicate Held(pol: Policy, m: Manifest, c: Cluster) {
    pol.key(m) in c && c[pol.key(m)] == pol.value(m)
  }

  /** The cluster holds every resource as wanted and no managed object besides. */
  ghost predicate InSync(pol: Policy, all: Resources, c: Cluster) {
    && (forall k :: k in all ==> Held(pol, all[k].manifest, c))
    && (forall id :: id in c && pol.managed(c[id]) ==> id in Wanted(pol, all))
  }

  /** A cluster can be in sync with a repository exactly when resources with the
      same key agree. */
  lemma SyncableIff(pol: Policy, all: Resources)
    ensures (exists c :: InSync(pol, all, c)) <==> Compatible(pol, all)
  {
    if c :| InSync(pol, all, c) {
      forall j, k | j in all && k in all && pol.key(all[j].manifest) == pol.key(all[k].manifest)
        ensures pol.value(all[j].manifest) == pol.value(all[k].manifest)
      {
        assert Held(pol, all[j].manifest, c) && Held(pol, all[k].manifest, c);
      }
    }
    if Compatible(pol, all) {
      var c := map id | id in Wanted(pol, all) :: ValueFor(pol, all, id);
      forall k | k in all ensures Held(pol, all[k].manifest, c) {
        assert pol.key(all[k].manifest) in Wanted(pol, all);
      }
      assert InSync(pol, all, c);
    }
  }

  ghost function ValueFor(pol: Policy, all: Resources, id: string): (m: Manifest)
    requires id in Wanted(pol, all)
    ensures exists k :: k in all && pol.key(all[k].manifest) == id && m == pol.value(all[k].manifest)
  {
    var k :| k in all && pol.key(all[k].manifest) == id;
    pol.value(all[k].manifest)
  }

  /** git diff lists at least the files that are new or different, and only
      files that exist. */
  ghost predicate ListsChanges(before: Tree, after: Tree, files: set<string>) {
    files <= after.Keys && forall p :: p in after && p !in files ==> p in before && before[p] == after[p]
  }

  function Only(tree: Tree, files: set<string>): Tree {
    map p | p in tree && p in files :: tree[p]
  }

  /** Loading some of the files of a tree that loads: this cannot fail, and
      gives the resources whose source file is among them. */
  lemma LoadsPart(env: Env, tree: Tree, files: set<string>, all: Resources, part: Resources)
    requires Loads(env, tree) && Loaded(env, tree, all)
    ensures Loads(env, Only(tree, files))
    ensures Loaded(env, Only(tree, files), part) ==>
              forall k :: k in part <==> k in all && all[k].source in files
    ensures Loaded(env, Only(tree, files), part) ==> forall k :: k in part ==> k in all && part[k] == all[k]
  {
    var some := Only(tree, files);
    forall p, id | Defines(env, some, p, id) ensures Defines(env, tree, p, id) && p in files {}
    forall p, id | Defines(env, tree, p, id) && p in files ensures Defines(env, some, p, id) {}
    if Loaded(env, some, part) {
      forall k | k in part ensures k in all && part[k] == all[k] && all[k].source in files {
        assert Defines(env, some, part[k].source, k);
      }
      forall k | k in all && all[k].source in files ensures k in part {
        assert Defines(env, tree, all[k].source, k);
      }
    }
  }

  lemma LoadedUnique(env: Env, tree: Tree, a: Resources, b: Resources)
    requires Loaded(env, tree, a) && Loaded(env, tree, b)
    ensures a == b
  {
    forall k | k in a ensures k in b && a[k] == b[k] { assert Defines(env, tree, a[k].source, k); }
    forall k | k in b ensures k in a { assert Defines(env, tree, b[k].source, k); }
  }

  /** What a round applies is held afterwards. */
  lemma AppliedIsHeld(pol: Policy, all: Resources, changed: Resources, c: Cluster, c': Cluster, k: string)
    requires Compatible(pol, all) && forall k :: k in changed ==> k in all && changed[k] == all[k]
    requires Rounded(pol, all, changed, c, c') && k in all && pol.key(all[k].manifest) in Wanted(pol, changed)
    ensures Held(pol, all[k].manifest, c')
  {
    var j := SomePrevails(pol, changed, pol.key(all[k].manifest));
  }

  /** Exactly when a round ends in sync, from any cluster and any sync tag: the
      resources it did not apply must already be in the cluster as wanted. */
  lemma RoundInSyncIff(pol: Policy, all: Resources, changed: Resources, c: Cluster, c': Cluster)
    requires Compatible(pol, all) && forall k :: k in changed ==> k in all && changed[k] == all[k]
    requires Rounded(pol, all, changed, c, c')
    ensures InSync(pol, all, c') <==>
              forall k :: k in all && pol.key(all[k].manifest) !in Wanted(pol, changed) ==> Held(pol, all[k].manifest, c)
  {
    forall k | k in all
      ensures if pol.key(all[k].manifest) in Wanted(pol, changed) then Held(pol, all[k].manifest, c')
              else Held(pol, all[k].manifest, c') <==> Held(pol, all[k].manifest, c)
    {
      assert pol.key(all[k].manifest) in Wanted(pol, all);
      if pol.key(all[k].manifest) in Wanted(pol, changed) { AppliedIsHeld(pol, all, changed, c, c', k); }
    }
    assert Wanted(pol, changed) <= Wanted(pol, all);
  }

  /** The resources of the revision of the sync tag that the cluster lacks. */
  ghost function Debt(pol: Policy, all: Resources, c: Cluster): set<string> {
    set k | k in all && !Held(pol, all[k].manifest, c)
  }

  /** Every owed resource has left the repository or is applied again. */
  ghost predicate Paid(pol: Policy, debt: set<string>, all: Resources, changed: Resources) {
    forall k :: k in debt && k in all ==> pol.key(all[k].manifest) in Wanted(pol, changed)
  }

  /** A resource that a round does not load again is as it was. */
  lemma UnchangedIsOld(env: Env, before: Tree, after: Tree, files: set<string>, oldAll: Resources, all: Resources, changed: Resources, k: string)
    requires Loaded(env, before, oldAll) && Loads(env, after) && Loaded(env, after, all)
    requires ListsChanges(before, after, files) && Loaded(env, Only(after, files), changed)
    requires k in all && k !in changed
    ensures k in oldAll && oldAll[k] == all[k]
  {
    LoadsPart(env, after, files, all, changed);
    assert Defines(env, after, all[k].source, k);
    assert Defines(env, before, all[k].source, k);
  }

  /** Exactly when an incremental round without errors ends in sync, from any
      cluster: the debt of the old revision is paid. A round that had resource
      errors, or whose tag push failed, leaves such a debt, and later rounds
      compare with the tag only. */
  lemma InSyncIffPaid(env: Env, pol: Policy, before: Tree, after: Tree, files: set<string>,
                      oldAll: Resources, all: Resources, changed: Resources, c: Cluster, c': Cluster)
    requires Loaded(env, before, oldAll) && Loads(env, after) && Loaded(env, after, all)
    requires ListsChanges(before, after, files) && Loaded(env, Only(after, files), changed)
    requires Compatible(pol, all) && Rounded(pol, all, changed, c, c')
    ensures InSync(pol, all, c') <==> Paid(pol, Debt(pol, oldAll, c), all, changed)
  {
    LoadsPart(env, after, files, all, changed);
    RoundInSyncIff(pol, all, changed, c, c');
    assert forall j :: j in changed ==> pol.key(changed[j].manifest) in Wanted(pol, changed);
    forall k | k in all && pol.key(all[k].manifest) !in Wanted(pol, changed) ensures k in oldAll && oldAll[k] == all[k] {
      UnchangedIsOld(env, before, after, files, oldAll, all, changed, k);
    }
  }

  /** An incremental round from a cluster in sync with the old revision leaves
      it in sync with the new one, although it applies only resources from the
      listed files. */
  lemma IncrementalRound(env: Env, pol: Policy, before: Tree, after: Tree, files: set<string>,
                         oldAll: Resources, all: Resources, changed: Resources, c: Cluster, c': Cluster)
    requires Loaded(env, before, oldAll) && Loads(env, after) && Loaded(env, after, all)
    requires ListsChanges(before, after, files) && Loaded(env, Only(after, files), changed)
    requires Compatible(pol, all) && InSync(pol, oldAll, c) && Rounded(pol, all, changed, c, c')
    ensures InSync(pol, all, c')
  {
    InSyncIffPaid(env, pol, before, after, files, oldAll, all, changed, c, c');
  }

  /** A round that applies everything needs nothing of the cluster it starts from. */
  lemma FullRound(pol: Policy, all: Resources, c: Cluster, c': Cluster)
    requires Compatible(pol, all) && Rounded(pol, all, all, c, c')
    ensures InSync(pol, all, c')
  {
    RoundInSyncIff(pol, all, all, c, c');
  }

  // ----- Runs -----

  /** `tag` is the revision of the sync tag, absent before the first sync. */
  datatype State = State(tag: Option<string>, cluster: Cluster)

  /** Rounds, with what they loaded: without errors on a repository that can be in
      sync; with resource errors, or on one that cannot; with a failed push of the
      tag. And rounds that fail before they apply anything, and changes by others. */
  datatype Event =
    | Completed(head: string, files: set<string>, all: Resources, changed: Resources)
    | Erring(head: string, files: set<string>, all: Resources, changed: Resources)
    | NotPushed(head: string, files: set<string>, all: Resources, changed: Resources)
    | Failed
    | Foreign

  /** The event does not disturb a cluster in sync. */
  predicate Harmless(e: Event) {
    e.Completed? || e.Failed? || e.Foreign?
  }

  /** What a round has loaded. */
  ghost predicate Loading(env: Env, tag: Option<string>, head: string, files: set<string>, all: Resources, changed: Resources) {
    var tree := env.history(head);
    && Loads(env, tree) && Loaded(env, tree, all)
    && if tag.None? then changed == all
       else ListsChanges(env.history(tag.value), tree, files) && Loaded(env, Only(tree, files), changed)
  }

  /** Others touch only objects that are neither managed nor wanted. */
  ghost predicate ForeignOnly(env: Env, pol: Policy, s: State, s': State) {
    && s'.tag == s.tag
    && forall id ::
         || (id in s.cluster && id in s'.cluster && s'.cluster[id] == s.cluster[id])
         || ((id in s.cluster ==> !pol.managed(s.cluster[id])) && (id in s'.cluster ==> !pol.managed(s'.cluster[id])) &&
             forall all :: s.tag.Some? && Loaded(env, env.history(s.tag.value), all) ==> id !in Wanted(pol, all))
  }

  ghost predicate Next(env: Env, pol: Policy, s: State, e: Event, s': State) {
    match e
    case Completed(head, files, all, changed) =>
      && Loading(env, s.tag, head, files, all, changed) && Compatible(pol, all)
      && Rounded(pol, all, changed, s.cluster, s'.cluster) && s'.tag == Some(head)
    case Erring(head, files, all, changed) =>
      && Loading(env, s.tag, head, files, all, changed)
      && Bounded(pol, all, changed, s.cluster, s'.cluster) && s'.tag == Some(head)
    case NotPushed(head, files, all, changed) =>
      && Loading(env, s.tag, head, files, all, changed)
      && Bounded(pol, all, changed, s.cluster, s'.cluster) && s'.tag == s.tag
    case Failed => s' == s
    case Foreign => ForeignOnly(env, pol, s, s')
  }

  /** The revision of the sync tag loads. */
  ghost predicate Tagged(env: Env, s: State) {
    s.tag.Some? ==> exists all :: Loaded(env, env.history(s.tag.value), all)
  }

  /** The cluster is in sync with the revision of the sync tag, if there is one. */
  ghost predicate Good(env: Env, pol: Policy, s: State) {
    && Tagged(env, s)
    && forall all :: s.tag.Some? && Loaded(env, env.history(s.tag.value), all) ==> InSync(pol, all, s.cluster)
  }

  /** A round without errors, started after a first one, pays the debt. */
  ghost predicate Pays(env: Env, pol: Policy, s: State, e: Event)
    requires e.Completed?
  {
    forall oldAll :: s.tag.Some? && Loaded(env, env.history(s.tag.value), oldAll) ==>
      Paid(pol, Debt(pol, oldAll, s.cluster), e.all, e.changed)
  }

  /** Exactly when a step without errors leads to a cluster in sync: a round if it
      pays the debt, others if the cluster was in sync before. */
  lemma GoodIff(env: Env, pol: Policy, s: State, e: Event, s': State)
    requires Tagged(env, s) && Harmless(e) && Next(env, pol, s, e, s')
    ensures Good(env, pol, s') <==> if e.Completed? then Pays(env, pol, s, e) else Good(env, pol, s)
  {
    if e.Completed? {
      CompletedGoodIff(env, pol, s, e, s');
    } else if e.Foreign? && s.tag.Some? {
      forall all | Loaded(env, env.history(s.tag.value), all)
        ensures InSync(pol, all, s.cluster) <==> InSync(pol, all, s'.cluster)
      {
        ForeignKeepsSync(env, pol, s, s', all);
      }
    }
  }

  lemma CompletedGoodIff(env: Env, pol: Policy, s: State, e: Event, s': State)
    requires Tagged(env, s) && e.Completed? && Next(env, pol, s, e, s')
    ensures Good(env, pol, s') <==> Pays(env, pol, s, e)
  {
    var after := env.history(e.head);
    forall all | Loaded(env, after, all) ensures all == e.all { LoadedUnique(env, after, all, e.all); }
    assert Good(env, pol, s') <==> InSync(pol, e.all, s'.cluster);
    if s.tag.None? {
      FullRound(pol, e.all, s.cluster, s'.cluster);
    } else {
      var before := env.history(s.tag.value);
      var oldAll :| Loaded(env, before, oldAll);
      forall all | Loaded(env, before, all) ensures all == oldAll { LoadedUnique(env, before, all, oldAll); }
      InSyncIffPaid(env, pol, before, after, e.files, oldAll, e.all, e.changed, s.cluster, s'.cluster);
    }
  }

  lemma StepKeepsTagged(env: Env, pol: Policy, s: State, e: Event, s': State)
    requires Tagged(env, s) && Next(env, pol, s, e, s')
    ensures Tagged(env, s')
  {
  }

  /** In particular, a cluster in sync has no debt. */
  lemma StepKeepsGood(env: Env, pol: Policy, s: State, e: Event, s': State)
    requires Good(env, pol, s) && Harmless(e) && Next(env, pol, s, e, s')
    ensures Good(env, pol, s')
  {
    GoodIff(env, pol, s, e, s');
    if e.Completed? && s.tag.Some? {
      forall oldAll | Loaded(env, env.history(s.tag.value), oldAll) ensures Debt(pol, oldAll, s.cluster) == {} {
        assert InSync(pol, oldAll, s.cluster);
      }
    }
  }

  lemma ForeignKeepsSync(env: Env, pol: Policy, s: State, s': State, all: Resources)
    requires ForeignOnly(env, pol, s, s') && s.tag.Some? && Loaded(env, env.history(s.tag.value), all)
    ensures InSync(pol, all, s.cluster) <==> InSync(pol, all, s'.cluster)
  {
    forall k | k in all ensures Held(pol, all[k].manifest, s.cluster) <==> Held(pol, all[k].manifest, s'.cluster) {
      assert pol.key(all[k].manifest) in Wanted(pol, all);
    }
  }

  ghost predicate IsRun(env: Env, pol: Policy, states: seq<State>, events: seq<Event>) {
    && |states| == |events| + 1 && states[0].tag.None?
    && forall j :: 0 <= j < |events| ==> Next(env, pol, states[j], events[j], states[j + 1])
  }

  lemma {:induction false} RunIsTagged(env: Env, pol: Policy, states: seq<State>, events: seq<Event>, i: nat)
    requires IsRun(env, pol, states, events) && i < |states|
    ensures Tagged(env, states[i])
  {
    if i > 0 {
      RunIsTagged(env, pol, states, events, i - 1);
      StepKeepsTagged(env, pol, states[i - 1], events[i - 1], states[i]);
    }
  }

  /** Over whole runs with any events: once in sync, the cluster stays in sync with
      the sync tag until a round has errors or cannot push the tag. */
  lemma {:induction false} StaysInSync(env: Env, pol: Policy, states: seq<State>, events: seq<Event>, m: nat, n: nat)
    requires IsRun(env, pol, states, events) && m <= n < |states| && Good(env, pol, states[m])
    requires forall j :: m <= j < n ==> Harmless(events[j])
    ensures Good(env, pol, states[n])
  {
    if m < n {
      StaysInSync(env, pol, states, events, m, n - 1);
      StepKeepsGood(env, pol, states[n - 1], events[n - 1], states[n]);
    }
  }

  /** Incremental sync over whole runs: starting before the first sync with any
      cluster, the cluster is in sync with the revision of the sync tag after
      every step, until a round has errors or cannot push the tag. */
  lemma EveryRunInSync(env: Env, pol: Policy, states: seq<State>, events: seq<Event>, n: nat)
    requires IsRun(env, pol, states, events) && n < |states| && forall j :: 0 <= j < n ==> Harmless(events[j])
    ensures Good(env, pol, states[n])
  {
    StaysInSync(env, pol, states, events, 0, n);
  }

  /** After errors: a later round m without errors restores sync for the rest of
      the run, as far as there are no new errors, if and only if it pays the debt. */
  lemma RestoredIff(env: Env, pol: Policy, states: seq<State>, events: seq<Event>, m: nat)
    requires IsRun(env, pol, states, events) && m < |events| && events[m].Completed?
    ensures Pays(env, pol, states[m], events[m]) <==>
            forall n :: m < n < |states| && (forall j :: m < j < n ==> Harmless(events[j])) ==> Good(env, pol, states[n])
  {
    RunIsTagged(env, pol, states, events, m);
    GoodIff(env, pol, states[m], events[m], states[m + 1]);
    if Good(env, pol, states[m + 1]) {
      forall n | m < n < |states| && (forall j :: m < j < n ==> Harmless(events[j])) ensures Good(env, pol, states[n]) {
        StaysInSync(env, pol, states, events, m + 1, n);
      }
    }
  }

  /** A debt that no later round pays: the initial round has an error on its only
      resource and moves the tag; a round without changes then completes without
      errors, and the resource is still missing. */
  lemma ErrorStaysMissing(pol: Policy, m: Manifest) returns (env: Env, states: seq<State>, events: seq<Event>)
    ensures IsRun(env, pol, states, events) && |events| == 2 && events[0].Erring? && events[1].Completed?
    ensures !Good(env, pol, states[2])
  {
    var id, file := Key(m.kind, m.name), "a.yaml";
    var all: Resources := map[id := ResourceFrom(file, m)];
    env := Env(Settings("", "", "", ""), "", (p, c) => Some(map[id := m]), h => map[file := ""]);
    OneFile(env, file, "", id, m, all);
    var s0, s1 := State(None, map[]), State(Some("head"), map[]);
    states, events := [s0, s1, s1], [Erring("head", {}, all, all), Completed("head", {}, all, map[])];
    assert Only(env.history("head"), {}) == map[];
    assert Next(env, pol, s0, events[0], s1);
    assert Next(env, pol, s1, events[1], s1);
    MissingIsNotGood(env, pol, s1, all, id);
  }

  /** The same after a failed push of the tag: the round applies a change that is
      taken back in the repository before the next round, which then has nothing
      to do. */
  lemma UnpushedChangeStays(pol: Policy, m: Manifest, m': Manifest) returns (env: Env, states: seq<State>, events: seq<Event>)
    requires Key(m.kind, m.name) == Key(m'.kind, m'.name) && pol.key(m) == pol.key(m') && pol.value(m) != pol.value(m')
    ensures IsRun(env, pol, states, events) && |events| == 3
    ensures events[0].Completed? && events[1].NotPushed? && events[2].Completed? && !Good(env, pol, states[3])
  {
    var id, file := Key(m.kind, m.name), "a.yaml";
    var all: Resources := map[id := ResourceFrom(file, m)];
    var all': Resources := map[id := ResourceFrom(file, m')];
    env := Env(Settings("", "", "", ""), "", (p, c) => Some(map[id := if c == "" then m else m']),
               h => map[file := if h == "changed" then "changed" else ""]);
    OneFile(env, file, "", id, m, all);
    OneFile(env, file, "changed", id, m', all');
    states, events := UnpushedRun(env, pol, file, id, all, all');
  }

  lemma UnpushedRun(env: Env, pol: Policy, file: string, id: string, all: Resources, all': Resources)
    returns (states: seq<State>, events: seq<Event>)
    requires all.Keys == {id} == all'.Keys
    requires var m, m' := all[id].manifest, all'[id].manifest; pol.key(m) == pol.key(m') && pol.value(m) != pol.value(m')
    requires env.history("first") == env.history("last") == map[file := ""] && env.history("changed") == map[file := "changed"]
    requires Loads(env, map[file := ""]) && Loaded(env, map[file := ""], all)
    requires Loads(env, map[file := "changed"]) && Loaded(env, map[file := "changed"], all')
    ensures IsRun(env, pol, states, events) && |events| == 3
    ensures events[0].Completed? && events[1].NotPushed? && events[2].Completed? && !Good(env, pol, states[3])
  {
    var s0, s1 := State(None, map[]), State(Some("first"), Single(pol, all[id].manifest));
    var s2, s3 := State(Some("first"), Single(pol, all'[id].manifest)), State(Some("last"), Single(pol, all'[id].manifest));
    FirstRound(env, pol, all, id);
    UnpushedRound(env, pol, file, all', id, s1.cluster);
    IdleRound(env, pol, file, all, id, s2.cluster);
    states, events := ThreeSteps(env, pol, s0, Completed("first", {}, all, all), s1,
                                 NotPushed("changed", {file}, all', all'), s2, Completed("last", {}, all, map[]), s3);
    MissingIsNotGood(env, pol, s3, all, id);
  }

  lemma ThreeSteps(env: Env, pol: Policy, s0: State, e0: Event, s1: State, e1: Event, s2: State, e2: Event, s3: State)
    returns (states: seq<State>, events: seq<Event>)
    requires s0.tag.None? && Next(env, pol, s0, e0, s1) && Next(env, pol, s1, e1, s2) && Next(env, pol, s2, e2, s3)
    ensures IsRun(env, pol, states, events) && states == [s0, s1, s2, s3] && events == [e0, e1, e2]
  {
    states, events := Extend(env, pol, [s0], [], e0, s1);
    states, events := Extend(env, pol, states, events, e1, s2);
    states, events := Extend(env, pol, states, events, e2, s3);
  }

  lemma Extend(env: Env, pol: Policy, states: seq<State>, events: seq<Event>, e: Event, s: State)
    returns (states': seq<State>, events': seq<Event>)
    requires IsRun(env, pol, states, events) && Next(env, pol, states[|events|], e, s)
    ensures IsRun(env, pol, states', events') && states' == states + [s] && events' == events + [e]
  {
    states', events' := states + [s], events + [e];
    var n := |events|;
    forall j | 0 <= j < n + 1 ensures Next(env, pol, states'[j], events'[j], states'[j + 1]) {
      assert states'[j] == states[j];
      if j < n { assert events'[j] == events[j] && states'[j + 1] == states[j + 1]; }
    }
  }

  /** The cluster with the object of one manifest. */
  function Single(pol: Policy, m: Manifest): Cluster {
    map[pol.key(m) := pol.value(m)]
  }

  lemma FirstRound(env: Env, pol: Policy, all: Resources, id: string)
    requires all.Keys == {id} && Loads(env, env.history("first")) && Loaded(env, env.history("first"), all)
    ensures Next(env, pol, State(None, map[]), Completed("first", {}, all, all), State(Some("first"), Single(pol, all[id].manifest)))
  {
    OneRound(pol, all, id, all[id].manifest, map[]);
  }

  lemma UnpushedRound(env: Env, pol: Policy, file: string, all: Resources, id: string, c: Cluster)
    requires all.Keys == {id} && c.Keys <= {pol.key(all[id].manifest)}
    requires env.history("first").Keys == {file} && env.history("changed").Keys == {file}
    requires Loads(env, env.history("changed")) && Loaded(env, env.history("changed"), all)
    ensures Next(env, pol, State(Some("first"), c), NotPushed("changed", {file}, all, all), State(Some("first"), Single(pol, all[id].manifest)))
  {
    OneRound(pol, all, id, all[id].manifest, c);
    assert Only(env.history("changed"), {file}) == env.history("changed");
  }

  lemma IdleRound(env: Env, pol: Policy, file: string, all: Resources, id: string, c: Cluster)
    requires all.Keys == {id} && c.Keys <= {pol.key(all[id].manifest)}
    requires env.history("first") == env.history("last") && Loads(env, env.history("last")) && Loaded(env, env.history("last"), all)
    ensures Next(env, pol, State(Some("first"), c), Completed("last", {}, all, map[]), State(Some("last"), c))
  {
    OneRound(pol, all, id, all[id].manifest, c);
    NoRound(pol, all, id, all[id].manifest, c);
    assert Only(env.history("last"), {}) == map[];
  }

  lemma MissingIsNotGood(env: Env, pol: Policy, s: State, all: Resources, k: string)
    requires s.tag.Some? && Loaded(env, env.history(s.tag.value), all)
    requires k in all && !Held(pol, all[k].manifest, s.cluster)
    ensures !Good(env, pol, s)
  {
    assert !InSync(pol, all, s.cluster);
  }

  /** Applying the only resource of a repository, to a cluster with at most its object. */
  lemma OneRound(pol: Policy, all: Resources, id: string, m: Manifest, c: Cluster)
    requires all.Keys == {id} && all[id].manifest == m && c.Keys <= {pol.key(m)}
    ensures var c': Cluster := map[pol.key(m) := pol.value(m)];
      Compatible(pol, all) && Rounded(pol, all, all, c, c') && Bounded(pol, all, all, c, c')
  {
    assert Wanted(pol, all) == {pol.key(m)};
  }

  /** Applying nothing. */
  lemma NoRound(pol: Policy, all: Resources, id: string, m: Manifest, c: Cluster)
    requires all.Keys == {id} && all[id].manifest == m && c.Keys <= {pol.key(m)}
    ensures Rounded(pol, all, map[], c, c)
  {
    assert pol.key(all[id].manifest) in Wanted(pol, all);
  }

  lemma OneFile(env: Env, file: string, content: Content, id: string, m: Manifest, all: Resources)
    requires env.docs(file, content) == Some(map[id := m]) && all == map[id := ResourceFrom(file, m)]
    ensures Loads(env, map[file := content]) && Loaded(env, map[file := content], all)
  {
    assert Defines(env, map[file := content], file, id);
  }

  /** In sync means: the managed part of the cluster is exactly the managed part
      of what the repository wants. */
  lemma InSyncIsEquality(pol: Policy, all: Resources, c: Cluster, id: string, m: Manifest)
    requires InSync(pol, all, c) && pol.managed(m)
    ensures id in c && c[id] == m <==> exists k :: k in all && pol.key(all[k].manifest) == id && pol.value(all[k].manifest) == m
  {
    if id in c && c[id] == m {
      assert id in Wanted(pol, all);
    }
  }
}
