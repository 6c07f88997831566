/** One sync round as the code runs it: load, label, convert, compare with the
    cluster, stage, apply, restore, move the tag. Models doSync, Sync,
    prepareSyncApply and prepareSyncDelete of pkg/gitops/gitops_sync.go on top of
    the other modules, and shows that a round without errors is a Completed
    step of module Reconcile. */
module SyncRound {
  import opened Common
  import opened ResourceKeys
  import opened Labels
  import opened Rekeying
  import opened Certificates
  import opened ChangeSets
  import opened Reconcile
  import opened ClusterExport

  predicate Converting(env: Env, m: Manifest) {
    env.settings.certManagerVersion == CONVERTING_VERSION && m.kind == "Certificate" && m.existCert
  }

  function Labelled(env: Env, m: Manifest): Manifest {
    Label(env.settings, env.namespace, m)
  }

  function FinalKey(env: Env, m: Manifest): string {
    if Converting(env, m) then Key("Secret", m.name) else Key(m.kind, m.name)
  }

  function FinalManifest(env: Env, m: Manifest): Manifest {
    if Converting(env, m) then TlsSecret(env.settings, Labelled(env, m)) else Labelled(env, m)
  }

  /** The agent's policy: the secret made from a certificate replaces a secret of
      the repository with the same name. */
  function PolicyOf(env: Env): Policy {
    Policy(m => FinalKey(env, m), m => FinalManifest(env, m), m => Managed(env.settings, env.namespace, m), m => Converting(env, m))
  }

  /** ConvertCertificate on decoded manifests. */
  function ConverterOf(env: Env): Converter {
    (key: string, m: Manifest) => if m.existCert then Converted(TlsSecret(env.settings, m)) else NotConverted
  }

  /** Files define manifests under their own IDs, with names as Kubernetes allows them. */
  ghost predicate ProperFiles(env: Env) {
    forall p, c, id :: env.docs(p, c).Some? && id in env.docs(p, c).value ==>
      id == Key(env.docs(p, c).value[id].kind, env.docs(p, c).value[id].name) && '/' !in env.docs(p, c).value[id].name
  }

  /** Resources as Load makes them. */
  ghost predicate Plain(m: Resources) {
    forall k :: k in m ==>
      && k == Key(m[k].manifest.kind, m[k].manifest.name) && '/' !in m[k].name
      && m[k].kind == m[k].manifest.kind && m[k].name == m[k].manifest.name && m[k].originalKey == ""
  }

  lemma LoadedIsPlain(env: Env, tree: Tree, all: Resources)
    requires ProperFiles(env) && Loaded(env, tree, all)
    ensures Plain(all)
  {
    forall k | k in all
      ensures k == Key(all[k].manifest.kind, all[k].manifest.name) && '/' !in all[k].name
      ensures all[k].kind == all[k].manifest.kind && all[k].name == all[k].manifest.name && all[k].originalKey == ""
    {
      assert Defines(env, tree, all[k].source, k);
    }
  }

  // ----- Labelling -----

  function LabelledResource(env: Env, r: Resource): Resource {
    r.(manifest := Labelled(env, r.manifest))
  }

  function LabelAll(env: Env, m: Resources): Resources {
    map k | k in m :: LabelledResource(env, m[k])
  }

  /** The labelling loop over the changed map. */
  method LabelChanged(env: Env, changed: ResourceMap, order: seq<string>)
    requires Distinct(order) && Elements(order) == changed.m.Keys
    modifies changed
    ensures changed.m == LabelAll(env, old(changed.m))
  {
    ghost var base, seen, f := changed.m, {}, r => LabelledResource(env, r);
    assert Updated(base, f, {}) == base;
    for i := 0 to |order|
      invariant seen == Elements(order[..i]) && changed.m == Updated(base, f, seen)
    {
      var key := order[i];
      ElementsOfPrefix(order, i);
      assert key in Elements(order);
      UpdatedMore(base, f, seen, key);
      changed.m := changed.m[key := LabelledResource(env, changed.m[key])];
      seen := seen + {key};
    }
    assert order[..|order|] == order;
    assert Updated(base, f, seen) == LabelAll(env, base);
  }

  // ----- Conversion, seen from the sync -----

  /** The entries that the forward pass moves. */
  ghost predicate MovesConverting(env: Env, all: Resources, made: Resources) {
    forall k :: k in made <==> k in all && Converting(env, all[k].manifest)
  }

  lemma KindLabelled(env: Env, m: Manifest)
    ensures Labelled(env, m).kind == m.kind && Labelled(env, m).name == m.name && Labelled(env, m).existCert == m.existCert
  {
  }

  lemma FinalKeyOf(env: Env, all: Resources, made: Resources, k: string)
    requires Plain(all) && MovesConverting(env, all, made) && k in all
    ensures FinalKey(env, all[k].manifest) == if k in made then NewKey(k) else k
  {
    NewKeyOfName(all[k].name);
  }

  lemma KeysAfterConversion(env: Env, all: Resources, base: Resources, made: Resources, m: Resources)
    requires Plain(all) && base.Keys == all.Keys && MovesConverting(env, all, made)
    requires Swapped(m, base, made, NewKey)
    ensures m.Keys == Wanted(PolicyOf(env), all)
  {
    var pol := PolicyOf(env);
    forall k | k in all ensures pol.key(all[k].manifest) == if k in made then NewKey(k) else k {
      FinalKeyOf(env, all, made, k);
    }
    forall id | id in m.Keys ensures id in Wanted(pol, all) {
      if id in NewKeys(made, NewKey) { var c :| c in made && NewKey(c) == id; assert c in all; }
      else { assert pol.key(all[id].manifest) == id; }
    }
    forall id | id in Wanted(pol, all) ensures id in m.Keys {
      var k :| k in all && pol.key(all[k].manifest) == id;
      if k in made { assert NewKey(k) in NewKeys(made, NewKey); }
    }
  }

  /** `m` is ready to be applied for the resources in `raw`: one entry under each
      final key, with the final manifest of the resource that prevails. */
  ghost predicate Ready(env: Env, raw: Resources, m: Resources) {
    && m.Keys == Wanted(PolicyOf(env), raw)
    && forall k :: k in raw && Prevails(PolicyOf(env), raw, k) ==>
         FinalKey(env, raw[k].manifest) in m && m[FinalKey(env, raw[k].manifest)].manifest == FinalManifest(env, raw[k].manifest)
  }

  lemma ReadyAfterConversion(env: Env, raw: Resources, made: Resources, m: Resources)
    requires Plain(raw) && MovesConverting(env, raw, made)
    requires forall k :: k in made ==> made[k].manifest == FinalManifest(env, raw[k].manifest)
    requires Swapped(m, LabelAll(env, raw), made, NewKey)
    ensures Ready(env, raw, m)
  {
    KeysAfterConversion(env, raw, LabelAll(env, raw), made, m);
    forall k | k in raw && Prevails(PolicyOf(env), raw, k)
      ensures var id := FinalKey(env, raw[k].manifest); id in m && m[id].manifest == FinalManifest(env, raw[k].manifest)
    {
      ReadyAt(env, raw, made, m, k);
    }
  }

  lemma ReadyAt(env: Env, raw: Resources, made: Resources, m: Resources, k: string)
    requires Plain(raw) && MovesConverting(env, raw, made)
    requires forall k :: k in made ==> made[k].manifest == FinalManifest(env, raw[k].manifest)
    requires Swapped(m, LabelAll(env, raw), made, NewKey) && m.Keys == Wanted(PolicyOf(env), raw)
    requires k in raw && Prevails(PolicyOf(env), raw, k)
    ensures var id := FinalKey(env, raw[k].manifest); id in m && m[id].manifest == FinalManifest(env, raw[k].manifest)
  {
    var id := FinalKey(env, raw[k].manifest);
    assert PolicyOf(env).key(raw[k].manifest) == id && id in Wanted(PolicyOf(env), raw);
    FinalKeyOf(env, raw, made, k);
    if id in NewKeys(made, NewKey) {
      assert Won(m, made, NewKey, id);
      var c :| c in made && NewKey(c) == id && m[id] == made[c];
      FinalKeyOf(env, raw, made, c);
      OnlyCertificate(env, raw, c, k);
    }
  }

  /** A certificate that converts is the only resource to prevail under its key. */
  lemma OnlyCertificate(env: Env, raw: Resources, c: string, k: string)
    requires Plain(raw) && c in raw && Converting(env, raw[c].manifest)
    requires k in raw && Prevails(PolicyOf(env), raw, k) && FinalKey(env, raw[k].manifest) == FinalKey(env, raw[c].manifest)
    ensures c == k
  {
    var pol := PolicyOf(env);
    assert pol.first(raw[c].manifest) && pol.key(raw[c].manifest) == pol.key(raw[k].manifest);
    assert Converting(env, raw[k].manifest);
    KeyIsInjective("Secret", raw[c].name, "Secret", raw[k].name);
  }

  // ----- Comparing and applying -----

  /** The resource that an exported cluster object is read back as. */
  function ExportedResource(m: Manifest): Resource {
    Resource("exported", m.kind, m.name, m, "")
  }

  function ApiOf(r: Resource): ApiObject {
    ApiObject(r.manifest.kind, r.manifest.name, r)
  }

  /** Managed objects that the repository map does not have. */
  function Gone(env: Env, c: Cluster, repo: Resources): set<string> {
    set id | id in c && Managed(env.settings, env.namespace, c[id]) && id !in repo
  }

  function DeleteActions(c: Cluster, ids: seq<string>): seq<SyncAction>
    requires Elements(ids) <= c.Keys
  {
    seq(|ids|, i requires 0 <= i < |ids| => assert ids[i] in Elements(ids); SyncAction(Some(ExportedResource(c[ids[i]])), None))
  }

  function ApplyActions(m: Resources, keys: seq<string>): seq<SyncAction>
    requires Elements(keys) <= m.Keys
  {
    seq(|keys|, i requires 0 <= i < |keys| => assert keys[i] in Elements(keys); SyncAction(None, Some(m[keys[i]])))
  }

  /** The first loop of Sync, over the exported objects: delete what is gone. */
  method PrepareDeletes(env: Env, c: Cluster, managed: set<string>, repo: Resources) returns (actions: seq<SyncAction>, ids: seq<string>)
    requires managed == ManagedIds(env.settings, env.namespace, c)
    ensures Elements(ids) == Gone(env, c, repo) && actions == DeleteActions(c, ids)
  {
    actions, ids := [], [];
    var exported := AnyOrder(managed);
    for i := 0 to |exported|
      invariant Elements(ids) == Elements(exported[..i]) - repo.Keys
      invariant Elements(ids) <= c.Keys && actions == DeleteActions(c, ids)
    {
      ElementsOfPrefix(exported, i);
      var id := exported[i];
      assert id in Elements(exported);
      if id !in repo {
        assert Elements(ids + [id]) == Elements(ids) + {id};
        actions, ids := actions + [SyncAction(Some(ExportedResource(c[id])), None)], ids + [id];
      }
    }
    assert exported[..|exported|] == exported;
  }

  /** The second loop of Sync: apply what changed. */
  method PrepareApplies(changed: Resources) returns (actions: seq<SyncAction>, keys: seq<string>)
    ensures Elements(keys) == changed.Keys && actions == ApplyActions(changed, keys)
  {
    actions := [];
    keys := AnyOrder(changed.Keys);
    for i := 0 to |keys|
      invariant Elements(keys[..i]) <= changed.Keys && actions == ApplyActions(changed, keys[..i])
    {
      ElementsOfPrefix(keys, i);
      assert keys[i] in Elements(keys);
      actions := actions + [SyncAction(None, Some(changed[keys[i]]))];
    }
    assert keys[..|keys|] == keys;
  }

  /** parseObj, when it succeeds, finds the kind and name of the manifest. */
  ghost predicate ParserReads(parse: Parser) {
    forall r :: parse(r).Some? ==> parse(r).value == (r.manifest.kind, r.manifest.name)
  }

  /** With no parse error, exactly the objects of the actions are staged. */
  lemma StagedObjects(actions: seq<SyncAction>, parse: Parser, o: ApiObject)
    requires forall a :: a in actions ==> OneOf(a)
    requires ParserReads(parse) && StageAll(actions, parse).errors == []
    ensures o in StageAll(actions, parse).deletes <==> o == ApiOf(o.resource) && SyncAction(Some(o.resource), None) in actions
    ensures o in StageAll(actions, parse).applies <==> o == ApiOf(o.resource) && SyncAction(None, Some(o.resource)) in actions
  {
    StagedAre(actions, parse, o);
    var x, y := SyncAction(Some(o.resource), None), SyncAction(None, Some(o.resource));
    if x in actions || y in actions {
      ErrorsAre(actions, parse, o.resource);
      assert x in actions ==> Target(x) == o.resource;
      assert y in actions ==> Target(y) == o.resource;
    }
  }

  lemma StagedDeletes(c: Cluster, ids: seq<string>, later: seq<SyncAction>, parse: Parser)
    requires Elements(ids) <= c.Keys && ClusterKeyed(c) && ParserReads(parse)
    requires forall a :: a in later ==> a.delete.None? && a.apply.Some?
    requires StageAll(DeleteActions(c, ids) + later, parse).errors == []
    ensures ObjectKeys(StageAll(DeleteActions(c, ids) + later, parse).deletes) == Elements(ids)
  {
    var first := DeleteActions(c, ids);
    var actions := first + later;
    var deletes := StageAll(actions, parse).deletes;
    forall o | o in deletes ensures ObjectKey(o) in Elements(ids) {
      StagedObjects(actions, parse, o);
      var i :| 0 <= i < |ids| && first[i] == SyncAction(Some(o.resource), None);
      assert ids[i] in Elements(ids);
    }
    forall id | id in Elements(ids) ensures id in ObjectKeys(deletes) {
      var i :| 0 <= i < |ids| && ids[i] == id;
      assert first[i] in actions;
      StagedObjects(actions, parse, ApiOf(ExportedResource(c[id])));
      assert ObjectKey(ApiOf(ExportedResource(c[id]))) == id;
    }
  }

  lemma StagedApplies(first: seq<SyncAction>, m: Resources, keys: seq<string>, parse: Parser)
    requires Elements(keys) == m.Keys && ParserReads(parse)
    requires forall a :: a in first ==> a.delete.Some? && a.apply.None?
    requires StageAll(first + ApplyActions(m, keys), parse).errors == []
    ensures var applies := StageAll(first + ApplyActions(m, keys), parse).applies;
            && (forall o :: o in applies ==> exists k :: k in m && o == ApiOf(m[k]))
            && (forall k :: k in m ==> ApiOf(m[k]) in applies)
  {
    var second := ApplyActions(m, keys);
    var actions := first + second;
    var applies := StageAll(actions, parse).applies;
    forall o | o in applies ensures exists k :: k in m && o == ApiOf(m[k]) {
      StagedObjects(actions, parse, o);
      var i :| 0 <= i < |keys| && second[i] == SyncAction(None, Some(o.resource));
      assert keys[i] in Elements(keys);
    }
    forall k | k in m ensures ApiOf(m[k]) in applies {
      assert k in Elements(keys);
      var i :| 0 <= i < |keys| && keys[i] == k;
      assert second[i] in actions;
      StagedObjects(actions, parse, ApiOf(m[k]));
    }
  }

  lemma FinalKeyIsObjectKey(env: Env, m: Manifest)
    ensures Key(FinalManifest(env, m).kind, FinalManifest(env, m).name) == FinalKey(env, m)
  {
  }

  /** The changed map, once ready, files every object under the key it is applied as. */
  lemma ReadyKeys(env: Env, raw: Resources, m: Resources, k: string)
    requires Ready(env, raw, m) && k in m
    ensures ObjectKey(ApiOf(m[k])) == k
  {
    var j := SomePrevails(PolicyOf(env), raw, k);
    FinalKeyIsObjectKey(env, raw[j].manifest);
  }

  /** The manifests that are applied are those of the changed map, key by key. */
  lemma AppliedTable(env: Env, raw: Resources, m: Resources, a: seq<ApiObject>)
    requires Ready(env, raw, m)
    requires forall o :: o in a ==> exists k :: k in m && o == ApiOf(m[k])
    requires forall k :: k in m ==> ApiOf(m[k]) in a
    ensures Table(a).Keys == m.Keys && forall k :: k in m ==> Table(a)[k] == m[k].manifest
  {
    forall k | k in m ensures ObjectKey(ApiOf(m[k])) == k { ReadyKeys(env, raw, m, k); }
    TableOfKeyed(m, a);
  }

  lemma TableOfKeyed(m: Resources, a: seq<ApiObject>)
    requires forall k :: k in m ==> ObjectKey(ApiOf(m[k])) == k && ApiOf(m[k]) in a
    requires forall o :: o in a ==> exists k :: k in m && o == ApiOf(m[k])
    ensures Table(a).Keys == m.Keys && forall k :: k in m ==> Table(a)[k] == m[k].manifest
  {
    TableKeys(a);
    forall k | k in m ensures k in ObjectKeys(a) && Table(a)[k] == m[k].manifest {
      TableAt(a, ApiOf(m[k]));
    }
  }

  /** Deleting what is gone and applying what changed is a round. */
  lemma EffectIsRounded(env: Env, all: Resources, raw: Resources, repo: Resources, m: Resources,
                        c: Cluster, d: seq<ApiObject>, table: Cluster)
    requires repo.Keys == Wanted(PolicyOf(env), all) && Ready(env, raw, m)
    requires ObjectKeys(d) == Gone(env, c, repo)
    requires table.Keys == m.Keys && forall k :: k in m ==> table[k] == m[k].manifest
    ensures Rounded(PolicyOf(env), all, raw, c, (c - ObjectKeys(d)) + table)
  {
    var pol := PolicyOf(env);
    assert m.Keys == Wanted(pol, raw);
    forall k | k in raw && Prevails(pol, raw, k) ensures pol.key(raw[k].manifest) in table && table[pol.key(raw[k].manifest)] == pol.value(raw[k].manifest) {
      assert FinalKey(env, raw[k].manifest) in m;
    }
  }

  // ----- What a sync can do to the cluster at most -----

  ghost predicate Honest(objs: seq<ApiObject>) {
    forall o :: o in objs ==> o == ApiOf(o.resource)
  }

  predicate Wrote(o: ApiObject, id: string, m: Manifest) {
    ObjectKey(o) == id && m == o.resource.manifest
  }

  /** Only IDs in `gone` have been removed, and only objects in `a` written. */
  ghost predicate Within(c: Cluster, c': Cluster, gone: set<string>, a: seq<ApiObject>) {
    && (forall id :: id in c && id !in c' ==> id in gone)
    && (forall id :: id in c' && !(id in c && c'[id] == c[id]) ==> exists o :: o in a && Wrote(o, id, c'[id]))
  }

  lemma {:induction false} TableHas(objs: seq<ApiObject>, id: string)
    requires id in Table(objs)
    ensures exists o :: o in objs && Wrote(o, id, Table(objs)[id])
  {
    var last := |objs| - 1;
    if ObjectKey(objs[last]) == id {
      assert Wrote(objs[last], id, Table(objs)[id]);
    } else {
      TableHas(objs[..last], id);
    }
  }

  /** A list of objects that a command may be given. */
  ghost predicate Allows(cmd: Command, objs: seq<ApiObject>, gone: set<string>, a: seq<ApiObject>) {
    match cmd
    case Delete => ObjectKeys(objs) <= gone
    case Apply => forall o :: o in objs ==> o in a
  }

  lemma EffectWithin(c: Cluster, b: Cluster, cmd: Command, objs: seq<ApiObject>, gone: set<string>, a: seq<ApiObject>)
    requires Within(c, b, gone, a) && Allows(cmd, objs, gone, a)
    ensures Within(c, Effect(b, cmd, objs), gone, a)
  {
    var c' := Effect(b, cmd, objs);
    forall id | id in c' && !(id in c && c'[id] == c[id]) ensures exists o :: o in a && Wrote(o, id, c'[id]) {
      if cmd == Apply && id in Table(objs) {
        TableHas(objs, id);
      } else {
        assert id in b && b[id] == c'[id];
      }
    }
  }

  function ObjectsOf(inv: Invocation): seq<ApiObject> {
    if inv.Batch? then inv.objs else [inv.obj]
  }

  lemma {:induction false} TraceWithin(c: Cluster, b: Cluster, cmd: Command, trace: seq<Invocation>, ok: Outcomes, n: nat,
                                       done: seq<ApiObject>, gone: set<string>, a: seq<ApiObject>)
    requires Within(c, b, gone, a) && Allows(cmd, done, gone, a)
    requires forall i :: 0 <= i < |trace| ==> trace[i].cmd == cmd && Allows(cmd, ObjectsOf(trace[i]), gone, a)
    ensures Within(c, PerformAll(b, trace, ok, n, done), gone, a)
  {
    if trace != [] {
      var last := |trace| - 1;
      TraceWithin(c, b, cmd, trace[..last], ok, n, done, gone, a);
      var before := PerformAll(b, trace[..last], ok, n, done);
      if trace[last].Batch? && !ok(n + last) {
        EffectWithin(c, before, cmd, done, gone, a);
      } else {
        EffectWithin(c, before, cmd, ObjectsOf(trace[last]), gone, a);
      }
    }
  }

  lemma AllowsOne(cmd: Command, objs: seq<ApiObject>, o: ApiObject, gone: set<string>, a: seq<ApiObject>)
    requires Allows(cmd, objs, gone, a) && o in objs
    ensures Allows(cmd, [o], gone, a)
  {
    assert ObjectKey(o) in ObjectKeys(objs);
  }

  /** Running the commands for a list, with any failures, stays within the list. */
  lemma PerformedWithin(c: Cluster, b: Cluster, cmd: Command, objs: seq<ApiObject>, ok: Outcomes, n: nat,
                        done: seq<ApiObject>, gone: set<string>, a: seq<ApiObject>)
    requires Within(c, b, gone, a) && Allows(cmd, objs, gone, a) && forall o :: o in done ==> o in objs
    ensures Within(c, PerformAll(b, Invocations(objs, cmd, ok, n), ok, n, done), gone, a)
  {
    var trace := Invocations(objs, cmd, ok, n);
    assert Allows(cmd, done, gone, a) by {
      assert forall o :: o in done ==> ObjectKey(o) in ObjectKeys(objs);
    }
    forall i | 0 <= i < |trace| ensures trace[i].cmd == cmd && Allows(cmd, ObjectsOf(trace[i]), gone, a) {
      if trace[i].Single? { AllowsOne(cmd, objs, trace[i].obj, gone, a); }
    }
    TraceWithin(c, b, cmd, trace, ok, n, done, gone, a);
  }

  /** Both lists, one after the other. */
  lemma BothWithin(c: Cluster, d: seq<ApiObject>, a: seq<ApiObject>, ok: Outcomes, m: nat, n: nat,
                   doneD: seq<ApiObject>, doneA: seq<ApiObject>, gone: set<string>)
    requires ObjectKeys(d) <= gone && (forall o :: o in doneD ==> o in d) && (forall o :: o in doneA ==> o in a)
    ensures var middle := PerformAll(c, Invocations(d, Delete, ok, m), ok, m, doneD);
      Within(c, PerformAll(middle, Invocations(a, Apply, ok, n), ok, n, doneA), gone, a)
  {
    PerformedWithin(c, c, Delete, d, ok, m, doneD, gone, a);
    PerformedWithin(c, PerformAll(c, Invocations(d, Delete, ok, m), ok, m, doneD), Apply, a, ok, n, doneA, gone, a);
  }

  lemma KeyedWithin(c: Cluster, c': Cluster, gone: set<string>, a: seq<ApiObject>)
    requires ClusterKeyed(c) && Within(c, c', gone, a) && Honest(a)
    ensures ClusterKeyed(c')
  {
    forall id | id in c' ensures id == Key(c'[id].kind, c'[id].name) {
      if !(id in c && c'[id] == c[id]) {
        var o :| o in a && Wrote(o, id, c'[id]);
      }
    }
  }

  lemma BoundedWithin(env: Env, all: Resources, raw: Resources, repo: Resources, m: Resources, c: Cluster, c': Cluster, a: seq<ApiObject>)
    requires repo.Keys == Wanted(PolicyOf(env), all) && Ready(env, raw, m)
    requires Within(c, c', Gone(env, c, repo), a) && forall o :: o in a ==> exists k :: k in m && o == ApiOf(m[k])
    ensures Bounded(PolicyOf(env), all, raw, c, c')
  {
    var pol := PolicyOf(env);
    forall id | id in c' && !(id in c && c'[id] == c[id])
      ensures exists k :: k in raw && pol.key(raw[k].manifest) == id && c'[id] == pol.value(raw[k].manifest)
    {
      var o :| o in a && Wrote(o, id, c'[id]);
      var k :| k in m && o == ApiOf(m[k]);
      ReadyKeys(env, raw, m, k);
      var j := SomePrevails(pol, raw, k);
      assert m[FinalKey(env, raw[j].manifest)].manifest == FinalManifest(env, raw[j].manifest);
    }
  }

  /** With or without parse errors, only what is asked for is staged. */
  lemma StagedOnlyGone(c: Cluster, ids: seq<string>, later: seq<SyncAction>, parse: Parser)
    requires Elements(ids) <= c.Keys && ClusterKeyed(c) && ParserReads(parse)
    requires forall a :: a in later ==> a.delete.None? && a.apply.Some?
    ensures ObjectKeys(StageAll(DeleteActions(c, ids) + later, parse).deletes) <= Elements(ids)
  {
    var first := DeleteActions(c, ids);
    forall o | o in StageAll(first + later, parse).deletes ensures ObjectKey(o) in Elements(ids) {
      StagedAre(first + later, parse, o);
      var i :| 0 <= i < |ids| && first[i].delete.Some? && Parse(parse, first[i].delete.value) == Some(o);
      assert ids[i] in Elements(ids);
    }
  }

  lemma StagedOnlyChanged(first: seq<SyncAction>, m: Resources, keys: seq<string>, parse: Parser)
    requires Elements(keys) <= m.Keys && ParserReads(parse)
    requires forall a :: a in first ==> a.delete.Some? && a.apply.None?
    ensures forall o :: o in StageAll(first + ApplyActions(m, keys), parse).applies ==> exists k :: k in m && o == ApiOf(m[k])
  {
    var second := ApplyActions(m, keys);
    forall o | o in StageAll(first + second, parse).applies ensures exists k :: k in m && o == ApiOf(m[k]) {
      StagedAre(first + second, parse, o);
      var i :| 0 <= i < |keys| && second[i].apply.Some? && Parse(parse, second[i].apply.value) == Some(o);
      assert keys[i] in Elements(keys);
    }
  }

  lemma SameObjects(a: seq<ApiObject>, b: seq<ApiObject>)
    requires multiset(a) == multiset(b)
    ensures (forall o :: o in a <==> o in b) && ObjectKeys(a) == ObjectKeys(b)
  {
    forall o ensures o in a <==> o in b { assert o in multiset(a) <==> o in multiset(b); }
  }

  /** Every resource parses and every command succeeds. */
  ghost predicate NothingFails(parse: Parser, ok: Outcomes) {
    (forall r :: parse(r).Some?) && forall n :: ok(n)
  }

  lemma NoParseErrors(actions: seq<SyncAction>, parse: Parser)
    requires (forall a :: a in actions ==> OneOf(a)) && forall r :: parse(r).Some?
    ensures StageAll(actions, parse).errors == []
  {
    StagedOnce(actions, parse);
    assert forall r :: r !in StageAll(actions, parse).errors;
  }

  /** No listing fails and every managed object fits the scanner's buffer. */
  ghost predicate CanExport(env: Env, c: Cluster, api: Api) {
    api.Failing() == {} && AllFit(env.settings, env.namespace, c, api)
  }

  /** A listing fails, or a managed object alone fills the buffer. */
  ghost predicate CannotExport(env: Env, c: Cluster, api: Api) {
    api.Failing() != {} || SomeTooLarge(env.settings, env.namespace, c, api)
  }

  /** Sync: export the cluster and read it back, compare with the repository map,
      stage, apply. `part` is the part of a failed batch that was nevertheless
      carried out. Without an export nothing is done. */
  method Sync(env: Env, c: Cluster, repo: Resources, changed: Resources, api: Api, parse: Parser, ok: Outcomes,
              part: seq<ApiObject> -> seq<ApiObject>, ghost all: Resources, ghost raw: Resources)
    returns (c': Cluster, exported: bool, clean: bool)
    requires Faithful(api) && Supported(api, c) && ClusterKeyed(c) && ParserReads(parse) && forall s, o :: o in part(s) ==> o in s
    requires repo.Keys == Wanted(PolicyOf(env), all) && Ready(env, raw, changed)
    ensures ClusterKeyed(c') && Bounded(PolicyOf(env), all, raw, c, c')
    ensures clean ==> exported && Rounded(PolicyOf(env), all, raw, c, c')
    ensures CanExport(env, c, api) ==> exported
    ensures CannotExport(env, c, api) ==> !exported
    ensures !exported ==> c' == c
    ensures exported && NothingFails(parse, ok) ==> clean
  {
    var managed, ids := ReadCluster(env.settings, env.namespace, c, api);
    if managed.None? { return c, false, false; }
    exported := true;
    c', clean := SyncWith(env, c, managed.value, repo, changed, parse, ok, part, all, raw);
  }

  /** Sync with the IDs of the managed objects at hand. */
  method SyncWith(env: Env, c: Cluster, managed: set<string>, repo: Resources, changed: Resources, parse: Parser, ok: Outcomes,
                  part: seq<ApiObject> -> seq<ApiObject>, ghost all: Resources, ghost raw: Resources)
    returns (c': Cluster, clean: bool)
    requires ClusterKeyed(c) && ParserReads(parse) && forall s, o :: o in part(s) ==> o in s
    requires managed == ManagedIds(env.settings, env.namespace, c)
    requires repo.Keys == Wanted(PolicyOf(env), all) && Ready(env, raw, changed)
    ensures ClusterKeyed(c') && Bounded(PolicyOf(env), all, raw, c, c')
    ensures clean ==> Rounded(PolicyOf(env), all, raw, c, c')
    ensures NothingFails(parse, ok) ==> clean
  {
    var deletes, ids := PrepareDeletes(env, c, managed, repo);
    var applies, keys := PrepareApplies(changed);
    var staged := Stage(deletes + applies, parse);
    var d, a, trace, errs := KubectlApply(staged.deletes, staged.applies, ok);
    var first := Invocations(d, Delete, ok, 0);
    var second := Invocations(a, Apply, ok, |first|);
    var middle := PerformAll(c, first, ok, 0, part(d));
    c' := PerformAll(middle, second, ok, |first|, part(a));
    clean := staged.errors == [] && errs == [];
    if NothingFails(parse, ok) { NoParseErrors(deletes + applies, parse); }
    SameObjects(d, staged.deletes);
    SameObjects(a, staged.applies);
    SyncIsBounded(env, c, repo, changed, parse, ok, part, all, raw, ids, keys, d, a);
    if clean {
      assert Reported(d, ok, 0) == [] && Reported(a, ok, |first|) == [];
      CleanSyncIsRounded(env, c, repo, changed, parse, ok, part, all, raw, ids, keys, d, a);
    }
  }

  /** The cluster after the commands for both lists. */
  function Synced(c: Cluster, ok: Outcomes, part: seq<ApiObject> -> seq<ApiObject>, d: seq<ApiObject>, a: seq<ApiObject>): Cluster {
    var first := Invocations(d, Delete, ok, 0);
    PerformAll(PerformAll(c, first, ok, 0, part(d)), Invocations(a, Apply, ok, |first|), ok, |first|, part(a))
  }

  lemma SyncIsBounded(env: Env, c: Cluster, repo: Resources, changed: Resources, parse: Parser, ok: Outcomes,
                      part: seq<ApiObject> -> seq<ApiObject>, all: Resources, raw: Resources,
                      ids: seq<string>, keys: seq<string>, d: seq<ApiObject>, a: seq<ApiObject>)
    requires ClusterKeyed(c) && ParserReads(parse) && forall s, o :: o in part(s) ==> o in s
    requires repo.Keys == Wanted(PolicyOf(env), all) && Ready(env, raw, changed)
    requires Elements(ids) == Gone(env, c, repo) && Elements(keys) == changed.Keys
    requires var s := StageAll(DeleteActions(c, ids) + ApplyActions(changed, keys), parse);
      ObjectKeys(d) == ObjectKeys(s.deletes) && forall o :: o in a <==> o in s.applies
    ensures ClusterKeyed(Synced(c, ok, part, d, a))
    ensures Bounded(PolicyOf(env), all, raw, c, Synced(c, ok, part, d, a))
  {
    var c' := Synced(c, ok, part, d, a);
    StagedOnlyGone(c, ids, ApplyActions(changed, keys), parse);
    StagedOnlyChanged(DeleteActions(c, ids), changed, keys, parse);
    BothWithin(c, d, a, ok, 0, |Invocations(d, Delete, ok, 0)|, part(d), part(a), Gone(env, c, repo));
    KeyedWithin(c, c', Gone(env, c, repo), a);
    BoundedWithin(env, all, raw, repo, changed, c, c', a);
  }

  lemma CleanSyncIsRounded(env: Env, c: Cluster, repo: Resources, changed: Resources, parse: Parser, ok: Outcomes,
                           part: seq<ApiObject> -> seq<ApiObject>, all: Resources, raw: Resources,
                           ids: seq<string>, keys: seq<string>, d: seq<ApiObject>, a: seq<ApiObject>)
    requires ClusterKeyed(c) && ParserReads(parse) && forall s, o :: o in part(s) ==> o in s
    requires repo.Keys == Wanted(PolicyOf(env), all) && Ready(env, raw, changed)
    requires Elements(ids) == Gone(env, c, repo) && Elements(keys) == changed.Keys
    requires var s := StageAll(DeleteActions(c, ids) + ApplyActions(changed, keys), parse);
      s.errors == [] && ObjectKeys(d) == ObjectKeys(s.deletes) && forall o :: o in a <==> o in s.applies
    requires Reported(d, ok, 0) == [] && Reported(a, ok, |Invocations(d, Delete, ok, 0)|) == []
    ensures Rounded(PolicyOf(env), all, raw, c, Synced(c, ok, part, d, a))
  {
    var first := Invocations(d, Delete, ok, 0);
    NoErrorsMeansDone(c, Delete, d, ok, 0, part(d));
    NoErrorsMeansDone(Effect(c, Delete, d), Apply, a, ok, |first|, part(a));
    StagedDeletes(c, ids, ApplyActions(changed, keys), parse);
    StagedApplies(DeleteActions(c, ids), changed, keys, parse);
    AppliedTable(env, raw, changed, a);
    EffectIsRounded(env, all, raw, repo, changed, c, d, Table(a));
  }

  // ----- The round -----

  /** The secrets that a pass makes; none if the version does not convert. */
  function Made(env: Env, oldRepo: Resources, oldChanged: Resources): Resources {
    if env.settings.certManagerVersion == CONVERTING_VERSION then Secrets(oldRepo, oldChanged, ConverterOf(env)) else map[]
  }

  /** What a conversion pass leaves, whether or not the version converts. */
  ghost predicate ConvertedMaps(env: Env, oldRepo: Resources, oldChanged: Resources, repo: Resources, changed: Resources) {
    Swapped(repo, oldRepo, Made(env, oldRepo, oldChanged), NewKey) && Swapped(changed, oldChanged, Restrict(Made(env, oldRepo, oldChanged), oldChanged.Keys), NewKey)
  }

  lemma MadeAt(env: Env, all: Resources, raw: Resources, oldRepo: Resources, k: string)
    requires Plain(all) && (oldRepo == all || oldRepo == LabelAll(env, all))
    requires forall k :: k in raw ==> k in all && raw[k] == all[k]
    ensures var made := Made(env, oldRepo, LabelAll(env, raw));
            && (k in made <==> k in all && Converting(env, all[k].manifest))
            && (k in made && k in raw ==> made[k].manifest == FinalManifest(env, raw[k].manifest))
  {
    if k in all { KindLabelled(env, all[k].manifest); }
  }

  /** After the pass the repository map has the wanted keys and the changed map
      is ready to be applied. oldRepo is the repository map before the pass, labelled
      too in an initial sync. */
  lemma ConversionReady(env: Env, all: Resources, raw: Resources, oldRepo: Resources, repo: Resources, changed: Resources)
    requires Plain(all) && (oldRepo == all || oldRepo == LabelAll(env, all))
    requires forall k :: k in raw ==> k in all && raw[k] == all[k]
    requires ConvertedMaps(env, oldRepo, LabelAll(env, raw), repo, changed)
    ensures repo.Keys == Wanted(PolicyOf(env), all) && Ready(env, raw, changed)
  {
    var oldChanged := LabelAll(env, raw);
    var made := Made(env, oldRepo, oldChanged);
    forall k
      ensures k in made <==> k in all && Converting(env, all[k].manifest)
      ensures k in made && k in raw ==> made[k].manifest == FinalManifest(env, raw[k].manifest)
    {
      MadeAt(env, all, raw, oldRepo, k);
    }
    KeysAfterConversion(env, all, oldRepo, made, repo);
    var moved := Restrict(made, oldChanged.Keys);
    assert Plain(raw);
    assert forall k :: k in moved <==> k in raw && Converting(env, raw[k].manifest);
    ReadyAfterConversion(env, raw, moved, changed);
  }

  lemma SwappedNothing(m: Resources)
    ensures Swapped(m, m, map[], NewKey)
  {
  }

  class Agent {
    /** The revision of the agent's sync tag. */
    var tag: Option<string>
    var cluster: Cluster

    constructor (tag: Option<string>, cluster: Cluster)
      ensures this.tag == tag && this.cluster == cluster
    {
      this.tag, this.cluster := tag, cluster;
    }
  }

  datatype Outcome = LoadFailed | ExportFailed | PushFailed | ResourceErrors | Clean

  /** Both conversion passes around the sync, on the maps of a round. The
      resource IDs of the restored changed map are looked up in it again, which
      never misses. */
  method ConvertSyncRestore(env: Env, c: Cluster, repo: ResourceMap, changed: ResourceMap, api: Api, parse: Parser, ok: Outcomes,
                            part: seq<ApiObject> -> seq<ApiObject>, ghost all: Resources, ghost raw: Resources)
    returns (c': Cluster, exported: bool, clean: bool, commits: seq<(string, string)>)
    requires Faithful(api) && Supported(api, c) && ClusterKeyed(c) && ParserReads(parse) && forall s, o :: o in part(s) ==> o in s
    requires Plain(all) && forall k :: k in raw ==> k in all && raw[k] == all[k]
    requires changed.m == LabelAll(env, raw) && (repo.m == all || repo.m == LabelAll(env, all))
    modifies repo, changed
    ensures ClusterKeyed(c') && Bounded(PolicyOf(env), all, raw, c, c')
    ensures clean ==> exported && Rounded(PolicyOf(env), all, raw, c, c')
    ensures CanExport(env, c, api) ==> exported
    ensures CannotExport(env, c, api) ==> !exported
    ensures !exported ==> c' == c
    ensures CommitsOf(commits, raw, changed.m)
    ensures exported && NothingFails(parse, ok) ==> clean
  {
    ghost var oldRepo, oldChanged := repo.m, changed.m;
    KeyedMaps(env, all, oldRepo);
    KeyedMaps(env, raw, oldChanged);
    var version := env.settings.certManagerVersion;
    var order := RangeOrder(repo.m.Keys);
    ConvertCertificateToSecret(version, repo, changed, ConverterOf(env), order);
    if version != CONVERTING_VERSION { NothingMade(env, oldRepo, oldChanged); }
    ConversionReady(env, all, raw, oldRepo, repo.m, changed.m);
    c', exported, clean := Sync(env, c, repo.m, changed.m, api, parse, ok, part, all, raw);
    SameSources(env, all, raw, oldRepo);
    commits := Restore(env, raw, oldRepo, oldChanged, changed);
  }

  ghost predicate Sourced(m: Resources, m': Resources) {
    forall k :: k in m ==> k in m' && m[k].source == m'[k].source
  }

  lemma SameSources(env: Env, all: Resources, raw: Resources, oldRepo: Resources)
    requires (forall k :: k in raw ==> k in all && raw[k] == all[k]) && (oldRepo == all || oldRepo == LabelAll(env, all))
    ensures Sourced(LabelAll(env, raw), raw) && Sourced(LabelAll(env, raw), oldRepo)
  {
  }

  /** The commits name resources of the map with their source files, and all of
      those in the second map. */
  ghost predicate CommitsOf(commits: seq<(string, string)>, m: Resources, listed: Resources) {
    && (forall c :: c in commits ==> c.0 in m && c.1 == m[c.0].source)
    && (forall id :: id in listed ==> id in m && (id, m[id].source) in commits)
  }

  /** The pass back and the resource commits. */
  method Restore(env: Env, ghost raw: Resources, ghost oldRepo: Resources, ghost oldChanged: Resources, changed: ResourceMap)
    returns (commits: seq<(string, string)>)
    requires Keyed(oldRepo) && Keyed(oldChanged) && forall k :: k in oldChanged ==> oldChanged[k].originalKey == ""
    requires Sourced(oldChanged, raw) && Sourced(oldChanged, oldRepo)
    requires Swapped(changed.m, oldChanged, Restrict(Made(env, oldRepo, oldChanged), oldChanged.Keys), NewKey)
    requires env.settings.certManagerVersion != CONVERTING_VERSION ==> changed.m == oldChanged
    modifies changed
    ensures CommitsOf(commits, raw, changed.m)
  {
    ghost var made, between := Restrict(Made(env, oldRepo, oldChanged), oldChanged.Keys), changed.m;
    MadeFromCertificates(env, oldRepo, oldChanged);
    ConvertedBetween(oldChanged, made, between);
    var order := RangeOrder(changed.m.Keys);
    ConvertSecretToCertificate(env.settings.certManagerVersion, changed, order);
    KeyedAfter(env, raw, oldRepo, oldChanged, between, changed.m);
    commits := ResourceCommits(changed.m);
  }

  /** The list of resource commits: each resource once, with its source file. */
  method ResourceCommits(m: Resources) returns (commits: seq<(string, string)>)
    requires Keyed(m)
    ensures forall id :: id in m ==> (id, m[id].source) in commits
    ensures forall c :: c in commits ==> c.0 in m && c.1 == m[c.0].source
    ensures |commits| == |m|
  {
    commits := [];
    var keys := AnyOrder(m.Keys);
    for i := 0 to |keys|
      invariant |commits| == i
      invariant forall j :: 0 <= j < i ==> keys[j] in m && commits[j] == (keys[j], m[keys[j]].source)
    {
      assert keys[i] in Elements(keys);
      var id := Id(m[keys[i]]);
      commits := commits + [(id, m[id].source)];
    }
    DistinctLength(keys);
    forall id | id in m ensures (id, m[id].source) in commits {
      assert id in Elements(keys);
      var j :| 0 <= j < |keys| && keys[j] == id;
      assert commits[j] == (id, m[id].source);
    }
  }

  lemma KeyedMaps(env: Env, raw: Resources, m: Resources)
    requires Plain(raw) && (m == raw || m == LabelAll(env, raw))
    ensures Keyed(m) && forall k :: k in m ==> m[k].originalKey == ""
  {
  }

  lemma NothingMade(env: Env, oldRepo: Resources, oldChanged: Resources)
    requires env.settings.certManagerVersion != CONVERTING_VERSION
    ensures ConvertedMaps(env, oldRepo, oldChanged, oldRepo, oldChanged)
  {
    assert Restrict(Made(env, oldRepo, oldChanged), oldChanged.Keys) == map[];
    SwappedNothing(oldRepo);
    SwappedNothing(oldChanged);
  }

  lemma MadeFromCertificates(env: Env, oldRepo: Resources, oldChanged: Resources)
    requires Keyed(oldRepo)
    ensures FromCertificates(Restrict(Made(env, oldRepo, oldChanged), oldChanged.Keys))
  {
    SecretsMade(oldRepo, oldChanged, ConverterOf(env));
  }

  lemma KeyedAfter(env: Env, raw: Resources, oldRepo: Resources, oldChanged: Resources, between: Resources, after: Resources)
    requires Keyed(oldRepo) && Keyed(oldChanged) && forall k :: k in oldChanged ==> oldChanged[k].originalKey == ""
    requires Sourced(oldChanged, raw) && Sourced(oldChanged, oldRepo)
    requires Swapped(between, oldChanged, Restrict(Made(env, oldRepo, oldChanged), oldChanged.Keys), NewKey)
    requires if env.settings.certManagerVersion == CONVERTING_VERSION
             then Swapped(after, between, Restored(between), OriginalKeys(between)) else after == between == oldChanged
    ensures Keyed(after) && Sourced(after, raw)
  {
    if env.settings.certManagerVersion == CONVERTING_VERSION {
      MadeFromCertificates(env, oldRepo, oldChanged);
      RoundTrip(oldChanged, Restrict(Made(env, oldRepo, oldChanged), oldChanged.Keys), between, after);
    }
  }

  /** What a round is for the run it belongs to. */
  ghost function EventOf(env: Env, r: Outcome, head: string, files: set<string>, all: Resources, raw: Resources): Event {
    match r
    case LoadFailed => Event.Failed
    case ExportFailed => Event.Failed
    case PushFailed => NotPushed(head, files, all, raw)
    case ResourceErrors => Erring(head, files, all, raw)
    case Clean => if Compatible(PolicyOf(env), all) then Completed(head, files, all, raw) else Erring(head, files, all, raw)
  }

  /** doSync, with git, kubectl and the tag push as oracles. Whatever happens, the
      round is a step of module Reconcile: a clean one on a repository that can be
      in sync is completed; one that fails to load or to export changes nothing;
      and the tag moves also when resources failed. */
  method DoSync(env: Env, agent: Agent, head: string, files: set<string>, api: Api, parse: Parser, ok: Outcomes,
                part: seq<ApiObject> -> seq<ApiObject>, pushed: bool)
    returns (r: Outcome, ghost all: Resources, ghost raw: Resources)
    requires Faithful(api) && ProperFiles(env) && ParserReads(parse) && forall s, o :: o in part(s) ==> o in s
    requires ClusterKeyed(agent.cluster) && Supported(api, agent.cluster)
    requires agent.tag.Some? ==> ListsChanges(env.history(agent.tag.value), env.history(head), files)
    modifies agent
    ensures ClusterKeyed(agent.cluster)
    ensures r.LoadFailed? <==> !Loads(env, env.history(head))
    ensures CanExport(env, old(agent.cluster), api) ==> !r.ExportFailed?
    ensures CannotExport(env, old(agent.cluster), api) ==> r.LoadFailed? || r.ExportFailed?
    ensures r.LoadFailed? || r.ExportFailed? ==> agent.tag == old(agent.tag) && agent.cluster == old(agent.cluster)
    ensures !r.LoadFailed? ==> Bounded(PolicyOf(env), all, raw, old(agent.cluster), agent.cluster)
    ensures r.PushFailed? <==> !r.LoadFailed? && !r.ExportFailed? && old(agent.tag) != Some(head) && !pushed
    ensures r.PushFailed? ==> agent.tag == old(agent.tag)
    ensures NothingFails(parse, ok) ==> !r.ResourceErrors?
    ensures r.ResourceErrors? || r.Clean? ==> agent.tag == Some(head)
    ensures Next(env, PolicyOf(env), State(old(agent.tag), old(agent.cluster)),
                 EventOf(env, r, head, files, all, raw), State(agent.tag, agent.cluster))
    ensures r.Clean? ==> Rounded(PolicyOf(env), all, raw, old(agent.cluster), agent.cluster)
  {
    all, raw := map[], map[];
    var loaded := LoadAll(env, env.history(head));
    if loaded.None? { return LoadFailed, all, raw; }
    all := loaded.value;
    LoadedIsPlain(env, env.history(head), all);
    var cluster, exported, clean;
    cluster, exported, clean, raw := LoadedRound(env, agent.cluster, head, agent.tag.None?, files, loaded.value, api, parse, ok, part);
    if !exported { return ExportFailed, all, raw; }
    ghost var before := State(agent.tag, agent.cluster);
    agent.cluster := cluster;
    if agent.tag != Some(head) && !pushed {
      r := PushFailed;
    } else {
      agent.tag := Some(head);
      r := if clean then Clean else ResourceErrors;
    }
    RoundIsEvent(env, r, head, files, all, raw, before, State(agent.tag, agent.cluster));
  }

  /** The round from the loaded repository to the cluster, on maps of its own. */
  method LoadedRound(env: Env, c: Cluster, head: string, initial: bool, files: set<string>, all: Resources,
                     api: Api, parse: Parser, ok: Outcomes, part: seq<ApiObject> -> seq<ApiObject>)
    returns (c': Cluster, exported: bool, clean: bool, ghost raw: Resources)
    requires Faithful(api) && Supported(api, c) && ClusterKeyed(c) && ParserReads(parse) && forall s, o :: o in part(s) ==> o in s
    requires Loads(env, env.history(head)) && Loaded(env, env.history(head), all) && Plain(all)
    ensures if initial then raw == all else Loaded(env, Only(env.history(head), files), raw)
    ensures ClusterKeyed(c') && Bounded(PolicyOf(env), all, raw, c, c')
    ensures clean ==> exported && Rounded(PolicyOf(env), all, raw, c, c')
    ensures CanExport(env, c, api) ==> exported
    ensures CannotExport(env, c, api) ==> !exported
    ensures !exported ==> c' == c
    ensures exported && NothingFails(parse, ok) ==> clean
  {
    var repo := new ResourceMap(all);
    var changed := LoadChanged(env, env.history(head), repo, initial, files, all);
    raw := changed.m;
    var order := AnyOrder(changed.m.Keys);
    LabelChanged(env, changed, order);
    var commits;
    c', exported, clean, commits := ConvertSyncRestore(env, c, repo, changed, api, parse, ok, part, all, raw);
  }

  lemma RoundIsEvent(env: Env, r: Outcome, head: string, files: set<string>, all: Resources, raw: Resources, s: State, s': State)
    requires !r.LoadFailed? && !r.ExportFailed? && Loading(env, s.tag, head, files, all, raw)
    requires Bounded(PolicyOf(env), all, raw, s.cluster, s'.cluster)
    requires r.Clean? ==> Rounded(PolicyOf(env), all, raw, s.cluster, s'.cluster)
    requires s'.tag == if r.PushFailed? then s.tag else Some(head)
    ensures Next(env, PolicyOf(env), s, EventOf(env, r, head, files, all, raw), s')
  {
  }

  method LoadAll(env: Env, tree: Tree) returns (r: Option<Resources>)
    ensures r.Some? <==> Loads(env, tree)
    ensures r.Some? ==> Loaded(env, tree, r.value)
  {
    var walk := AnyOrder(tree.Keys);
    r := Load(env, tree, walk);
  }

  /** The changed map: the repository map itself in an initial sync, otherwise
      a second map loaded from the listed files, which cannot fail. */
  method LoadChanged(env: Env, tree: Tree, repo: ResourceMap, initial: bool, files: set<string>, ghost all: Resources)
    returns (changed: ResourceMap)
    requires Loads(env, tree) && Loaded(env, tree, all) && repo.m == all
    ensures repo.m == all && (changed == repo || fresh(changed))
    ensures if initial then changed == repo else Loaded(env, Only(tree, files), changed.m)
    ensures forall k :: k in changed.m ==> k in all && changed.m[k] == all[k]
  {
    changed := repo;
    if !initial {
      LoadsPart(env, tree, files, all, map[]);
      var listed := LoadAll(env, Only(tree, files));
      LoadsPart(env, tree, files, all, listed.value);
      changed := new ResourceMap(listed.value);
    }
  }

  // ----- What a round may delete -----

  /** Whatever a round removes, also a round with errors, carries the agent's own
      marks and is not wanted any more. In particular no object that the agent
      never labelled, no service or ingress marked no_delete, no object of a
      release, and no secret marked as converted. */
  lemma DeletionIsSafe(env: Env, all: Resources, raw: Resources, c: Cluster, c': Cluster, id: string)
    requires Bounded(PolicyOf(env), all, raw, c, c') && id in c && id !in c'
    ensures Marked(env.settings, env.namespace, c[id]) && id !in Wanted(PolicyOf(env), all)
    ensures c[id].kind in {"Deployment", "StatefulSet", "DaemonSet", "Job", "CronJob"} ==>
              WORKLOAD in c[id].labels && c[id].labels[WORKLOAD] == c[id].kind
    ensures c[id].kind in {"ConfigMap", "Secret", "PersistentVolumeClaim"} ==>
              && AGENT_VERSION in c[id].labels && c[id].labels[AGENT_VERSION] != ""
              && (RELEASE in c[id].labels ==> c[id].labels[RELEASE] == "")
    ensures c[id].kind in {"Service", "Ingress"} ==> NETWORK in c[id].labels && NO_DELETE !in c[id].labels
    ensures c[id].kind == "Secret" ==> (TLS_SECRET in c[id].labels ==> c[id].labels[TLS_SECRET] == "")
    ensures c[id].kind == "PersistentVolumeClaim" ==>
              PVC in c[id].labels && c[id].labels[PVC] == "pvc-cluster-" + env.settings.clusterId
    ensures c[id].kind == "C7NHelmRelease" && env.namespace == env.settings.agentNamespace && env.settings.clusterId != "" ==>
              RELEASE_CLUSTER in c[id].labels && c[id].labels[RELEASE_CLUSTER] == env.settings.clusterId
    ensures c[id].kind == "Certificate" ==> env.settings.certManagerVersion in {"0.1.0", "1.1.1"}
    ensures c[id].name != env.namespace
  {
    assert PolicyOf(env).managed(c[id]) <==> Managed(env.settings, env.namespace, c[id]);
    ManagedIff(env.settings, env.namespace, c[id]);
  }

  /** A round without errors removes every object with the agent's own marks that is
      not wanted any more. */
  lemma GoneIsRemoved(env: Env, all: Resources, raw: Resources, c: Cluster, c': Cluster, id: string)
    requires Rounded(PolicyOf(env), all, raw, c, c') && forall k :: k in raw ==> k in all && raw[k] == all[k]
    requires id in c && Marked(env.settings, env.namespace, c[id]) && id !in Wanted(PolicyOf(env), all)
    ensures id !in c'
  {
    ManagedIff(env.settings, env.namespace, c[id]);
    assert PolicyOf(env).managed(c[id]);
    assert Wanted(PolicyOf(env), raw) <= Wanted(PolicyOf(env), all);
  }

  /** What stands in the cluster for a resource of the repository after it was
      applied: the labelled manifest under its own key, or the labelled secret
      made from it. It is recognised as the agent's own as its author could
      foresee, except that a secret made from a certificate never is. */
  lemma WhatIsApplied(env: Env, m: Manifest)
    ensures var w := FinalManifest(env, m);
      && w.name == m.name && w.body == m.body && FinalKey(env, m) == Key(w.kind, m.name)
      && (if env.settings.certManagerVersion == "1.1.1" && m.kind == "Certificate" && m.existCert
          then w.kind == "Secret" && (TLS_SECRET, env.settings.agentVersion) in w.labels.Items && !Marked(env.settings, env.namespace, w)
          else w.kind == m.kind && w == Label(env.settings, env.namespace, m) &&
               (Marked(env.settings, env.namespace, w) <==> WillBeManaged(env.settings, env.namespace, m)))
  {
    LabelledIffManaged(env.settings, env.namespace, m);
    ManagedIff(env.settings, env.namespace, FinalManifest(env, m));
    LabelsWritten(env.settings, env.namespace, m);
    SecretKeepsRest(env.settings, Labelled(env, m));
    if Converting(env, m) { ConvertedSecretIsUnmanaged(env.settings, env.namespace, m); }
  }

  /** The one clash to avoid: a secret named like a certificate that converts. */
  lemma NoClashIff(env: Env, all: Resources)
    requires Plain(all)
    ensures NoClash(PolicyOf(env), all) <==>
              forall k :: k in all && Converting(env, all[k].manifest) ==> Key("Secret", all[k].name) !in all
  {
    var pol := PolicyOf(env);
    forall k | k in all ensures pol.key(all[k].manifest) == if Converting(env, all[k].manifest) then Key("Secret", all[k].name) else k {}
    if NoClash(pol, all) {
      forall k | k in all && Converting(env, all[k].manifest) ensures Key("Secret", all[k].name) !in all {
        var s := Key("Secret", all[k].name);
        if s in all { SecretIsNoCertificate(env, all, s, all[k].name); }
      }
    } else {
      var j, k :| j in all && k in all && pol.key(all[j].manifest) == pol.key(all[k].manifest) && j != k;
      if Converting(env, all[j].manifest) && Converting(env, all[k].manifest) {
        KeyIsInjective("Secret", all[j].name, "Secret", all[k].name);
      }
    }
  }

  lemma SecretIsNoCertificate(env: Env, all: Resources, s: string, name: string)
    requires Plain(all) && s in all && s == Key("Secret", name)
    ensures !Converting(env, all[s].manifest) && s != Key("Certificate", name)
  {
    assert ToLower("Secret")[0] == 's' && ToLower("Certificate")[0] == 'c';
    assert s[0] == 's' && Key("Certificate", name)[0] == 'c';
    assert Key("Certificate", all[s].manifest.name)[0] == 'c';
  }
}
