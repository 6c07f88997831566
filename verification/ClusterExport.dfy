/** Listing the managed objects of a namespace, exporting them as a YAML stream and
    reading the stream back: how a sync learns what is in the cluster.
    Models the GetResources loops of pkg/kubernetes/resourcekinds.go, Export of
    pkg/kubernetes/kubernetes.go and the first part of Sync of
    pkg/gitops/gitops_sync.go on top of module Exporter. */
module ClusterExport {
  import opened Common
  import opened ResourceKeys
  import opened Labels
  import opened ChangeSets
  import opened YamlSplitter
  import opened Exporter

  /** How a manifest is written as YAML and read back, the scanner's buffer, the
      kinds that the API server does not know, and other kinds whose listing fails. */
  datatype Api = Api(write: Manifest -> K8sResource, decode: Decoder, max: nat, unsupported: set<string>, broken: set<string>)
  {
    /** The kinds whose listing makes the export fail. */
    function Failing(): set<string> {
      (broken - unsupported) * EXPORTED
    }
  }

  /** There is no object of a kind that the API server does not know. */
  ghost predicate Supported(api: Api, c: Cluster) {
    forall id :: id in c ==> c[id].kind !in api.unsupported
  }

  /** Reading undoes writing. */
  ghost predicate Faithful(api: Api) {
    api.max > 0 && forall m :: Reads(api, m)
  }

  ghost predicate Reads(api: Api, m: Manifest) {
    var r := api.write(m);
    WellFormed(r) && Decodes(api.decode, r) && r.kind == m.kind && r.name == m.name
  }

  ghost predicate ClusterKeyed(c: Cluster) {
    forall id :: id in c ==> id == Key(c[id].kind, c[id].name)
  }

  function Objects(api: Api, c: Cluster, ids: seq<string>): seq<K8sResource>
    requires Elements(ids) <= c.Keys
  {
    seq(|ids|, i requires 0 <= i < |ids| => assert ids[i] in Elements(ids); api.write(c[ids[i]]))
  }

  /** The objects of a kind that its filter selects. */
  function SelectedIds(s: Settings, namespace: string, c: Cluster, kind: string): set<string> {
    set id | id in c && c[id].kind == kind && Selected(s, namespace, c[id])
  }

  function ManagedIds(s: Settings, namespace: string, c: Cluster): set<string> {
    set id | id in c && Managed(s, namespace, c[id])
  }

  /** The managed objects of some kinds. */
  function ManagedOf(s: Settings, namespace: string, c: Cluster, kinds: set<string>): set<string> {
    set id | id in c && c[id].kind in kinds && Managed(s, namespace, c[id])
  }

  lemma AllKinds(s: Settings, namespace: string, c: Cluster, api: Api)
    requires Supported(api, c)
    ensures ManagedOf(s, namespace, c, EXPORTED - api.unsupported) == ManagedIds(s, namespace, c)
  {
  }

  /** GetResources of a kind, in any order. */
  method GetResources(s: Settings, namespace: string, c: Cluster, kind: string, api: Api)
    returns (items: seq<K8sResource>, ghost ids: seq<string>)
    ensures Distinct(ids) && Elements(ids) == SelectedIds(s, namespace, c, kind)
    ensures items == Objects(api, c, ids)
    ensures |items| == |SelectedIds(s, namespace, c, kind)|
    ensures forall id :: id in c && c[id].kind == kind && Marked(s, namespace, c[id]) ==> api.write(c[id]) in items
    ensures forall id :: id in ids && c[id].name != namespace ==> Marked(s, namespace, c[id])
    ensures forall id :: id in SelectedIds(s, namespace, c, kind) ==> api.write(c[id]) in items
  {
    items, ids := [], [];
    var order := AnyOrder(set id | id in c && c[id].kind == kind);
    for i := 0 to |order|
      invariant Distinct(ids) && Elements(ids) == Elements(order[..i]) * SelectedIds(s, namespace, c, kind)
      invariant items == Objects(api, c, ids)
    {
      var id := order[i];
      ElementsOfPrefix(order, i);
      assert id in Elements(order) && id !in Elements(order[..i]);
      if Selected(s, namespace, c[id]) {
        assert id !in Elements(ids);
        assert Elements(ids + [id]) == Elements(ids) + {id};
        items, ids := items + [api.write(c[id])], ids + [id];
      }
    }
    assert order[..|order|] == order;
    ghost var selected := SelectedIds(s, namespace, c, kind);
    assert Elements(ids) == selected;
    AllWritten(api, c, ids, items);
    MarkedAreSelected(s, namespace, c, kind);
  }

  lemma MarkedAreSelected(s: Settings, namespace: string, c: Cluster, kind: string)
    ensures forall id :: id in c && c[id].kind == kind && c[id].name != namespace ==>
              (id in SelectedIds(s, namespace, c, kind) <==> Marked(s, namespace, c[id]))
    ensures forall id :: id in c && Marked(s, namespace, c[id]) ==> c[id].name != namespace
  {
    forall id | id in c ensures Managed(s, namespace, c[id]) <==> Marked(s, namespace, c[id]) {
      ManagedIff(s, namespace, c[id]);
    }
  }

  lemma AllWritten(api: Api, c: Cluster, ids: seq<string>, items: seq<K8sResource>)
    requires Distinct(ids) && Elements(ids) <= c.Keys && items == Objects(api, c, ids)
    ensures |items| == |Elements(ids)| && forall id :: id in Elements(ids) ==> api.write(c[id]) in items
  {
    DistinctLength(ids);
    forall id | id in Elements(ids) ensures api.write(c[id]) in items {
      var i :| 0 <= i < |ids| && ids[i] == id;
      assert items[i] == api.write(c[id]);
    }
  }

  /** Those not named after the namespace. */
  function NotOwn(c: Cluster, ids: seq<string>, namespace: string): seq<string>
    requires Elements(ids) <= c.Keys
  {
    if ids == [] then []
    else
      var last := ids[|ids| - 1];
      assert last in Elements(ids) && Elements(ids[..|ids| - 1]) <= Elements(ids);
      NotOwn(c, ids[..|ids| - 1], namespace) + if c[last].name == namespace then [] else [last]
  }

  lemma {:induction false} NotOwnAre(c: Cluster, ids: seq<string>, namespace: string)
    requires Elements(ids) <= c.Keys && Distinct(ids)
    ensures forall id :: id in NotOwn(c, ids, namespace) <==> id in ids && c[id].name != namespace
    ensures Distinct(NotOwn(c, ids, namespace))
  {
    if ids != [] {
      var n := |ids| - 1;
      LastSplit(ids);
      assert ids[n] in Elements(ids) && Elements(ids[..n]) <= Elements(ids);
      NotOwnAre(c, ids[..n], namespace);
    }
  }

  lemma ForeignMore(items: seq<K8sResource>, item: K8sResource, namespace: string)
    ensures Foreign(items + [item], namespace) == Foreign(items, namespace) + if item.name == namespace then [] else [item]
  {
    assert (items + [item])[..|items|] == items;
  }

  lemma ObjectsMore(api: Api, c: Cluster, ids: seq<string>, id: string)
    requires Elements(ids) <= c.Keys && id in c
    ensures Elements(ids + [id]) <= c.Keys && Objects(api, c, ids + [id]) == Objects(api, c, ids) + [api.write(c[id])]
  {
  }

  lemma {:induction false} ForeignObjects(api: Api, c: Cluster, ids: seq<string>, namespace: string)
    requires Faithful(api) && Elements(ids) <= c.Keys && Distinct(ids)
    ensures Elements(NotOwn(c, ids, namespace)) <= c.Keys
    ensures Foreign(Objects(api, c, ids), namespace) == Objects(api, c, NotOwn(c, ids, namespace))
  {
    NotOwnAre(c, ids, namespace);
    assert forall id :: id in ids <==> id in Elements(ids);
    if ids != [] {
      var front, last := ids[..|ids| - 1], ids[|ids| - 1];
      assert last in Elements(ids) && Elements(front) <= Elements(ids);
      ForeignObjects(api, c, front, namespace);
      assert front + [last] == ids && Reads(api, c[last]);
      ObjectsMore(api, c, front, last);
      ForeignMore(Objects(api, c, front), api.write(c[last]), namespace);
      ObjectsMore(api, c, NotOwn(c, front, namespace), last);
    }
  }

  /** Export of the cluster, over the kinds in any order; a kind that the API
      server does not know is skipped. */
  method ExportCluster(s: Settings, namespace: string, c: Cluster, api: Api)
    returns (r: Option<seq<byte>>, ghost ids: seq<string>)
    requires Faithful(api)
    ensures r.None? <==> api.Failing() != {}
    ensures r.Some? ==>
      && Distinct(ids) && Elements(ids) == ManagedOf(s, namespace, c, EXPORTED - api.unsupported)
      && r.value == ExportText(Objects(api, c, ids))
  {
    var order := AnyOrder(EXPORTED);
    var kinds: seq<Listing> := [];
    ids := [];
    ghost var skipped := api.unsupported + api.broken;
    for k := 0 to |order|
      invariant |kinds| == k && (Broken in kinds <==> (api.broken - api.unsupported) * Elements(order[..k]) != {})
      invariant Distinct(ids) && Elements(ids) == ManagedOf(s, namespace, c, Elements(order[..k]) - skipped)
      invariant Exported(kinds, namespace) == Objects(api, c, ids)
    {
      var kind := order[k];
      ElementsOfPrefix(order, k);
      var listing := if kind in api.unsupported then NotSupported else Broken;
      if kind !in api.unsupported && kind !in api.broken {
        var items, more := GetResources(s, namespace, c, kind, api);
        ForeignObjects(api, c, more, namespace);
        NotOwnAre(c, more, namespace);
        ghost var own := NotOwn(c, more, namespace);
        AddKind(s, namespace, c, kind, Elements(order[..k]) - skipped, ids, more, own, api);
        listing, ids := Listed(items), ids + own;
      }
      assert (kinds + [listing])[..k] == kinds;
      assert Broken in kinds + [listing] <==> Broken in kinds || kind in api.broken - api.unsupported;
      OneMoreKind(api.broken - api.unsupported, Elements(order[..k]), kind);
      OneMoreKind(skipped, Elements(order[..k]), kind);
      kinds := kinds + [listing];
    }
    assert order[..|order|] == order;
    r := Export(kinds, namespace);
    if r.Some? { NoneBroken(EXPORTED, api.unsupported, api.broken); }
  }

  lemma NoneBroken(kinds: set<string>, unsupported: set<string>, broken: set<string>)
    requires (broken - unsupported) * kinds == {}
    ensures kinds - (unsupported + broken) == kinds - unsupported
  {
    forall kind | kind in kinds - unsupported ensures kind !in broken {
      assert kind !in (broken - unsupported) * kinds;
    }
  }

  lemma OneMoreKind(some: set<string>, kinds: set<string>, kind: string)
    ensures some * (kinds + {kind}) != {} <==> some * kinds != {} || kind in some
    ensures kinds + {kind} - some == kinds - some + if kind in some then {} else {kind}
  {
    if kind in some { assert kind in some * (kinds + {kind}); }
    if x :| x in some * kinds { assert x in some * (kinds + {kind}); }
  }

  lemma AddKind(s: Settings, namespace: string, c: Cluster, kind: string, kinds: set<string>,
                ids: seq<string>, more: seq<string>, own: seq<string>, api: Api)
    requires kind !in kinds && Distinct(ids) && Elements(ids) == ManagedOf(s, namespace, c, kinds)
    requires Elements(more) == SelectedIds(s, namespace, c, kind) && Distinct(own)
    requires forall id :: id in own <==> id in c && id in more && c[id].name != namespace
    ensures Distinct(ids + own) && Elements(ids + own) == ManagedOf(s, namespace, c, kinds + {kind})
    ensures Elements(own) <= c.Keys && Objects(api, c, ids + own) == Objects(api, c, ids) + Objects(api, c, own)
  {
    assert forall id :: id in own <==> id in Elements(own);
    assert forall id :: id in more <==> id in Elements(more);
    assert forall id :: id in ids <==> id in Elements(ids);
    assert Elements(own) <= c.Keys;
    forall i, j | 0 <= i < |ids| && 0 <= j < |own| ensures ids[i] != own[j] {
      assert ids[i] in Elements(ids) && own[j] in Elements(own);
    }
    assert Elements(ids + own) == Elements(ids) + Elements(own);
  }

  lemma ObjectsAreExportable(s: Settings, namespace: string, c: Cluster, api: Api, ids: seq<string>)
    requires Faithful(api) && ClusterKeyed(c) && Distinct(ids) && Elements(ids) == ManagedIds(s, namespace, c)
    ensures Exportable(Objects(api, c, ids), api.decode)
  {
    var rs := Objects(api, c, ids);
    forall r | r in rs ensures WellFormed(r) && Decodes(api.decode, r) && '/' !in r.kind {
      var i :| 0 <= i < |rs| && rs[i] == r;
      assert ids[i] in Elements(ids) && Reads(api, c[ids[i]]);
      ExportedKind(s, namespace, c[ids[i]]);
    }
    KeysAreIds(c, api, ids);
    forall i, j | 0 <= i < j < |rs| ensures ToLower(rs[i].kind) != ToLower(rs[j].kind) || rs[i].name != rs[j].name {
      assert KeyOf(rs[i]) == KeysOf(rs)[i] == ids[i] && KeyOf(rs[j]) == KeysOf(rs)[j] == ids[j];
    }
  }

  lemma ExportedKind(s: Settings, namespace: string, m: Manifest)
    requires Managed(s, namespace, m)
    ensures m.kind in EXPORTED && '/' !in m.kind
  {
    if m.kind in {"Service", "Ingress", "ConfigMap", "Secret"} {
      ShortKind(m.kind);
    } else if m.kind in WORKLOADS {
      WorkloadKind(m.kind);
    } else {
      LongKind(m.kind);
    }
  }

  lemma ShortKind(kind: string)
    requires kind in {"Service", "Ingress", "ConfigMap", "Secret"}
    ensures '/' !in kind
  {
  }

  lemma WorkloadKind(kind: string)
    requires kind in WORKLOADS
    ensures '/' !in kind
  {
  }

  lemma LongKind(kind: string)
    requires kind in {"Certificate", "C7NHelmRelease", "PersistentVolumeClaim"}
    ensures '/' !in kind
  {
  }

  lemma KeysAreIds(c: Cluster, api: Api, ids: seq<string>)
    requires Faithful(api) && ClusterKeyed(c) && Elements(ids) <= c.Keys
    ensures KeysOf(Objects(api, c, ids)) == ids
  {
    forall i | 0 <= i < |ids| ensures KeyOf(Objects(api, c, ids)[i]) == ids[i] {
      assert ids[i] in Elements(ids) && Reads(api, c[ids[i]]);
    }
  }

  /** Every managed object leaves room for its separators in the scanner's buffer. */
  ghost predicate AllFit(s: Settings, namespace: string, c: Cluster, api: Api) {
    forall id :: id in ManagedIds(s, namespace, c) ==> |Written(api.write(c[id]))| + 4 <= api.max
  }

  /** Every document of the export, in the order of the IDs, fits the buffer. */
  ghost predicate ExportFits(c: Cluster, api: Api, ids: seq<string>)
    requires Elements(ids) <= c.Keys
  {
    ids == [] || Fits(Docs(Objects(api, c, ids)), api.max)
  }

  /** What Sync reads of the cluster: the IDs of exactly the managed objects. With
      the objects exported in the order of `ids`, it succeeds if and only if no
      listing fails and every document fits. In whatever order, it succeeds if all
      objects leave room for their separators, and fails if the text of one alone
      fills the buffer. */
  method ReadCluster(s: Settings, namespace: string, c: Cluster, api: Api) returns (r: Option<set<string>>, ghost ids: seq<string>)
    requires Faithful(api) && ClusterKeyed(c) && Supported(api, c)
    ensures r.Some? ==> r.value == ManagedIds(s, namespace, c)
    ensures r.Some? ==> forall id :: id in r.value <==> id in c && Marked(s, namespace, c[id])
    ensures api.Failing() == {} ==>
      && Distinct(ids) && Elements(ids) == ManagedIds(s, namespace, c)
      && (r.Some? <==> ExportFits(c, api, ids))
    ensures api.Failing() == {} && AllFit(s, namespace, c, api) ==> r.Some?
    ensures api.Failing() != {} || SomeTooLarge(s, namespace, c, api) ==> r.None?
  {
    var text;
    text, ids := ExportCluster(s, namespace, c, api);
    if text.None? { return None, ids; }
    AllKinds(s, namespace, c, api);
    ghost var rs := Objects(api, c, ids);
    ObjectsAreExportable(s, namespace, c, api, ids);
    KeysAreIds(c, api, ids);
    ExportParseRoundTrip(rs, api.decode, api.max);
    var parsed := ParseMultidoc([text.value], api.decode, api.max);
    assert Flatten([text.value]) == text.value;
    if AllFit(s, namespace, c, api) && ids != [] { SmallFit(s, namespace, c, api, ids); }
    if SomeTooLarge(s, namespace, c, api) { LargeDoesNotFit(s, namespace, c, api, ids); }
    r := if parsed.Parsed? then Some(parsed.objs.Keys) else None;
    MarkedIds(s, namespace, c);
  }

  lemma MarkedIds(s: Settings, namespace: string, c: Cluster)
    ensures forall id :: id in ManagedIds(s, namespace, c) <==> id in c && Marked(s, namespace, c[id])
  {
    forall id | id in c ensures Managed(s, namespace, c[id]) <==> Marked(s, namespace, c[id]) {
      ManagedIff(s, namespace, c[id]);
    }
  }

  ghost predicate SomeTooLarge(s: Settings, namespace: string, c: Cluster, api: Api) {
    exists id :: id in ManagedIds(s, namespace, c) && |Text(api.write(c[id]))| >= api.max
  }

  lemma LargeDoesNotFit(s: Settings, namespace: string, c: Cluster, api: Api, ids: seq<string>)
    requires Elements(ids) == ManagedIds(s, namespace, c) && SomeTooLarge(s, namespace, c, api)
    ensures !ExportFits(c, api, ids)
  {
    var id :| id in ManagedIds(s, namespace, c) && |Text(api.write(c[id]))| >= api.max;
    assert id in Elements(ids);
    var i :| 0 <= i < |ids| && ids[i] == id;
    var rs := Objects(api, c, ids);
    assert rs[i] == api.write(c[id]) && |Docs(rs)[i]| >= |Text(rs[i])|;
  }

  lemma SmallFit(s: Settings, namespace: string, c: Cluster, api: Api, ids: seq<string>)
    requires Elements(ids) == ManagedIds(s, namespace, c) && AllFit(s, namespace, c, api) && ids != []
    ensures Fits(Docs(Objects(api, c, ids)), api.max)
  {
    var rs := Objects(api, c, ids);
    forall i | 0 <= i < |rs| ensures |Docs(rs)[i]| + 4 <= api.max {
      assert ids[i] in Elements(ids);
      assert |Docs(rs)[i]| <= |Written(rs[i])|;
    }
  }
}
