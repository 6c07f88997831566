/** Announcing, registering and enabling API groups and their versions
    (certificate/apimachinery). */
module Registration {
  import opened Common

  datatype GroupVersion = GroupVersion(group: string, version: string)

  datatype GroupArgs = GroupArgs(name: string, preference: seq<string>)

  /** The versions that KUBE_API_VERSIONS allows, in order; empty allows all. */
  function Allowed(requested: seq<GroupVersion>, versions: seq<GroupVersion>): seq<GroupVersion> {
    if versions == [] then []
    else
      var last := versions[|versions| - 1];
      Allowed(requested, versions[..|versions| - 1]) + if requested == [] || last in requested then [last] else []
  }

  lemma {:induction false} AllowedAreVersions(requested: seq<GroupVersion>, versions: seq<GroupVersion>)
    ensures forall v :: v in Allowed(requested, versions) <==> v in versions && (requested == [] || v in requested)
    ensures Distinct(versions) ==> Distinct(Allowed(requested, versions))
  {
    if versions != [] {
      var n := |versions| - 1;
      LastSplit(versions);
      AllowedAreVersions(requested, versions[..n]);
    }
  }

  /** The places of the allowed versions in the list, in ascending order. */
  ghost predicate AllowedAt(at: seq<nat>, requested: seq<GroupVersion>, versions: seq<GroupVersion>) {
    && (forall j, k :: 0 <= j < k < |at| ==> at[j] < at[k])
    && (forall k :: 0 <= k < |at| ==> at[k] < |versions|)
    && (forall i :: 0 <= i < |versions| ==> (i in at <==> requested == [] || versions[i] in requested))
  }

  /** The list at the given places. */
  ghost predicate Picks(allowed: seq<GroupVersion>, at: seq<nat>, versions: seq<GroupVersion>) {
    |at| == |allowed| && forall k :: 0 <= k < |at| ==> at[k] < |versions| && allowed[k] == versions[at[k]]
  }

  lemma OnePlaceMore(at: seq<nat>, requested: seq<GroupVersion>, versions: seq<GroupVersion>)
    requires versions != [] && AllowedAt(at, requested, versions[..|versions| - 1])
    ensures var n := |versions| - 1; var yes := requested == [] || versions[n] in requested;
      AllowedAt(at + if yes then [n] else [], requested, versions)
  {
    var n := |versions| - 1;
    assert forall i :: 0 <= i < n ==> versions[..n][i] == versions[i];
    assert forall i :: i in at + [n] <==> i in at || i == n;
    assert n !in at;
  }

  /** The allowed versions keep the order of the list. */
  lemma {:induction false} AllowedKeepsOrder(requested: seq<GroupVersion>, versions: seq<GroupVersion>) returns (at: seq<nat>)
    ensures AllowedAt(at, requested, versions) && Picks(Allowed(requested, versions), at, versions)
  {
    at := [];
    if versions != [] {
      var n := |versions| - 1;
      at := AllowedKeepsOrder(requested, versions[..n]);
      OnePlaceMore(at, requested, versions);
      if requested == [] || versions[n] in requested { at := at + [n]; }
    }
  }

  lemma FirstPlace(at: seq<nat>, i: nat)
    requires (forall j, k :: 0 <= j < k < |at| ==> at[j] < at[k]) && i in at && forall j :: j in at ==> i <= j
    ensures at != [] && at[0] == i
  {
    var k :| 0 <= k < |at| && at[k] == i;
    assert at[0] in at;
  }

  /** So the first version of a group's metadata is the most preferred allowed one:
      none that is allowed comes before it in the preference order. */
  lemma PreferredComesFirst(list: seq<GroupVersion>, args: GroupArgs, announced: set<string>, requested: seq<GroupVersion>, i: nat)
    requires Prioritized(list, args, announced) && i < |args.preference|
    requires requested == [] || GroupVersion(args.name, args.preference[i]) in requested
    requires forall j :: 0 <= j < i ==> !(requested == [] || GroupVersion(args.name, args.preference[j]) in requested)
    ensures Allowed(requested, list) != [] && Allowed(requested, list)[0] == GroupVersion(args.name, args.preference[i])
  {
    var at := AllowedKeepsOrder(requested, list);
    assert list[i] == GroupVersion(args.name, args.preference[i]);
    forall j | j in at ensures i <= j {
      assert requested == [] || list[j] in requested;
    }
    FirstPlace(at, i);
  }

  function Versions(group: string, names: seq<string>): seq<GroupVersion> {
    seq(|names|, i requires 0 <= i < |names| => GroupVersion(group, names[i]))
  }

  /** A finished list: every announced version of the group once, beginning with
      the preference order. */
  ghost predicate Prioritized(list: seq<GroupVersion>, args: GroupArgs, announced: set<string>) {
    && Distinct(list)
    && (forall v :: v in list <==> v.group == args.name && v.version in announced)
    && |args.preference| <= |list|
    && forall i :: 0 <= i < |args.preference| ==> list[i] == GroupVersion(args.name, args.preference[i])
  }

  /** The manager of the registered and enabled versions. */
  class Manager {
    const requested: seq<GroupVersion>
    var registered: set<GroupVersion>
    var enabled: set<GroupVersion>
    var groups: map<string, seq<GroupVersion>>  // the versions of each group's metadata

    constructor (requested: seq<GroupVersion>)
      ensures this.requested == requested && registered == {} && enabled == {} && groups == map[] && Valid()
    {
      this.requested := requested;
      registered, enabled, groups := {}, {}, map[];
    }

    /** Enabled versions are registered and their groups have metadata; the
        metadata lists enabled versions of the group, without repetitions. */
    ghost predicate Valid()
      reads this
    {
      && enabled <= registered
      && (forall v :: v in enabled ==> v.group in groups)
      && (forall g :: g in groups ==>
            groups[g] != [] && Distinct(groups[g]) && forall v :: v in groups[g] ==> v in enabled && v.group == g)
    }

    method RegisterVersions(versions: seq<GroupVersion>)
      modifies this`registered
      ensures registered == old(registered) + Elements(versions)
    {
      for i := 0 to |versions|
        invariant registered == old(registered) + Elements(versions[..i])
      {
        ElementsOfPrefix(versions, i);
        registered := registered + {versions[i]};
      }
      assert versions[..|versions|] == versions;
    }

    /** The version is enabled even where the call fails. */
    method EnableVersion(v: GroupVersion) returns (ok: bool)
      modifies this`enabled
      ensures enabled == old(enabled) + {v} && ok == (v in registered)
    {
      ok := v in registered;
      enabled := enabled + {v};
    }

    method RegisterGroup(group: string, versions: seq<GroupVersion>) returns (ok: bool)
      modifies this`groups
      ensures ok == (group !in old(groups))
      ensures groups == if ok then old(groups)[group := versions] else old(groups)
    {
      ok := group !in groups;
      if ok { groups := groups[group := versions]; }
    }

    method IsAllowedVersion(v: GroupVersion) returns (yes: bool)
      ensures yes == (requested == [] || v in requested)
    {
      if requested == [] { return true; }
      for i := 0 to |requested|
        invariant v !in requested[..i]
      {
        if v == requested[i] { return true; }
      }
      return false;
    }

    /** For a group with metadata, its whole list: best version first. */
    method EnabledVersionsForGroup(group: string) returns (versions: seq<GroupVersion>)
      requires Valid()
      ensures versions == if group in groups then groups[group] else []
    {
      versions := [];
      if group !in groups { return; }
      for i := 0 to |groups[group]|
        invariant versions == groups[group][..i]
      {
        assert groups[group][i] in groups[group];
        if groups[group][i] in enabled { versions := versions + [groups[group][i]]; }
      }
    }

    /** The union of the group mappers in RESTMapper, in any range order over the
        enabled versions: no metadata is missing, and each group comes once. */
    method UnionedGroups() returns (ok: bool, unioned: seq<string>)
      requires Valid()
      ensures ok && Distinct(unioned)
      ensures forall g :: g in unioned <==> exists v :: v in enabled && v.group == g
    {
      var order := AnyOrder(enabled);
      unioned := [];
      for i := 0 to |order|
        invariant Distinct(unioned)
        invariant forall g :: g in unioned <==> exists k :: 0 <= k < i && order[k].group == g
      {
        assert order[i] in Elements(order);
        if order[i].group !in unioned {
          if order[i].group !in groups { return false, unioned; }
          unioned := unioned + [order[i].group];
        }
      }
      forall v | v in enabled ensures v.group in unioned { assert v in Elements(order); }
      forall g | g in unioned ensures exists v :: v in enabled && v.group == g {
        var k :| 0 <= k < |order| && order[k].group == g;
        assert order[k] in Elements(order);
      }
      ok := true;
    }
  }

  datatype VersionArgs = VersionArgs(group: string, version: string)

  /** What was announced for a group. */
  datatype Announcement = Announcement(args: Option<GroupArgs>, versions: map<string, VersionArgs>) {
    /** Announcing keys every version by its own name. */
    ghost predicate Named() {
      forall v :: v in versions ==> versions[v].version == v
    }

    ghost predicate Registrable() {
      && args.Some? && versions != map[] && Distinct(args.value.preference)
      && (forall v :: v in versions ==> versions[v].group == args.value.name)
      && (forall v :: v in args.value.preference ==> v in versions)
    }
  }

  const NOTHING := Announcement(None, map[])

  datatype RegisterError = PartiallyAnnounced | NoVersions | DuplicatePreference | ForeignVersion | NeverAnnounced

  class Factory {
    var groupArgs: Option<GroupArgs>
    var versionArgs: map<string, VersionArgs>
    var prioritized: seq<GroupVersion>

    constructor ()
      ensures groupArgs == None && versionArgs == map[] && prioritized == []
    {
      groupArgs, versionArgs, prioritized := None, map[], [];
    }

    ghost function Announced(): Announcement
      reads this
    {
      Announcement(groupArgs, versionArgs)
    }

    /** Register, for any range order over the versions: it succeeds exactly on a
        well-announced group. */
    method Register(m: Manager) returns (error: Option<RegisterError>)
      requires Announced().Named()
      modifies this`prioritized, m`registered
      ensures error == None <==> Announced().Registrable()
      ensures error == None ==> Prioritized(prioritized, groupArgs.value, versionArgs.Keys)
      ensures error == None ==> m.registered == old(m.registered) + Elements(prioritized)
      ensures error.Some? ==> prioritized == old(prioritized) && m.registered == old(m.registered)
    {
      if groupArgs == None { return Some(PartiallyAnnounced); }
      if versionArgs == map[] { return Some(NoVersions); }
      var group, preference := groupArgs.value.name, groupArgs.value.preference;
      var pvSet := Elements(preference);
      CardinalityOfElements(preference);
      if |pvSet| != |preference| { return Some(DuplicatePreference); }
      var list := Versions(group, preference);
      var ok, left, unprioritized := Unprioritized(group, pvSet);
      if !ok { return Some(ForeignVersion); }
      if left != {} {
        var v :| v in left;
        assert v in preference && v !in versionArgs;
        return Some(NeverAnnounced);
      }
      forall v | v in pvSet ensures v in versionArgs { assert v !in left; }
      assert forall v :: v in preference ==> v in pvSet;
      ListIsPrioritized(groupArgs.value, versionArgs.Keys, unprioritized);
      m.RegisterVersions(list + unprioritized);
      prioritized := list + unprioritized;
      error := None;
    }

    /** The loop over the announced versions: what remains of the preferred set,
        and the versions outside it, in range order. */
    method Unprioritized(group: string, preferred: set<string>) returns (ok: bool, left: set<string>, versions: seq<GroupVersion>)
      requires Announced().Named()
      ensures ok <==> forall v :: v in versionArgs ==> versionArgs[v].group == group
      ensures ok ==> left == preferred - versionArgs.Keys && Rest(versions, group, versionArgs.Keys - preferred)
    {
      var pvSet := preferred;
      versions := [];
      var order := AnyOrder(versionArgs.Keys);
      for i := 0 to |order|
        invariant pvSet == preferred - Elements(order[..i])
        invariant forall k :: 0 <= k < i ==> versionArgs[order[k]].group == group
        invariant Rest(versions, group, Elements(order[..i]) - preferred)
      {
        var v := versionArgs[order[i]];
        ElementsOfPrefix(order, i);
        assert order[i] in Elements(order) && v.version == order[i];
        if v.group != group { return false, pvSet, versions; }
        if v.version in pvSet {
          pvSet := pvSet - {v.version};
          assert Elements(order[..i + 1]) - preferred == Elements(order[..i]) - preferred;
        } else {
          assert Elements(order[..i + 1]) - preferred == Elements(order[..i]) - preferred + {v.version};
          versions := versions + [GroupVersion(v.group, v.version)];
        }
      }
      assert order[..|order|] == order;
      forall v | v in versionArgs ensures versionArgs[v].group == group { assert v in Elements(order); }
      ok, left := true, pvSet;
    }

    /** Register has finished the list, or was not called. */
    ghost predicate Finished()
      reads this
    {
      prioritized != [] ==>
        && groupArgs.Some? && Distinct(prioritized)
        && forall v :: v in prioritized ==> v.group == groupArgs.value.name && v.version in versionArgs
    }

    /** With the manager of Register, where the versions are registered, the
        allowed versions are enabled and, if there are any, become the metadata of
        the group; this fails exactly when the group has metadata already. With
        another manager it fails, and leaves a version enabled that is not
        registered: the manager stays valid exactly in the first case. */
    method Enable(m: Manager) returns (ok: bool)
      requires m.Valid() && Finished()
      modifies m`enabled, m`groups
      ensures var allowed := Allowed(m.requested, prioritized);
        if Elements(allowed) <= m.registered then
          && m.Valid() && m.enabled == old(m.enabled) + Elements(allowed)
          && ok == (allowed == [] || groupArgs.value.name !in old(m.groups))
          && m.groups == if allowed == [] || !ok then old(m.groups) else old(m.groups)[groupArgs.value.name := allowed]
        else !ok && !m.Valid() && m.groups == old(m.groups)
    {
      var externals;
      AllowedAreVersions(m.requested, prioritized);
      ok, externals := EnableAllowed(m);
      if !ok || externals == [] { return; }
      assert forall v :: v in externals ==> v in Elements(externals) && v.group == groupArgs.value.name;
      ok := m.RegisterGroup(externals[0].group, externals);
    }

    /** The first loop of Enable, up to the first version that is not registered. */
    method EnableAllowed(m: Manager) returns (ok: bool, externals: seq<GroupVersion>)
      modifies m`enabled
      ensures ok <==> Elements(Allowed(m.requested, prioritized)) <= m.registered
      ensures ok ==> externals == Allowed(m.requested, prioritized) && m.enabled == old(m.enabled) + Elements(externals)
      ensures !ok ==> exists v :: v in m.enabled && v !in m.registered
    {
      externals := [];
      for i := 0 to |prioritized|
        invariant externals == Allowed(m.requested, prioritized[..i])
        invariant m.enabled == old(m.enabled) + Elements(externals) && Elements(externals) <= m.registered
      {
        var v := prioritized[i];
        assert prioritized[..i + 1][..i] == prioritized[..i];
        var allowed := m.IsAllowedVersion(v);
        if allowed {
          assert Elements(externals + [v]) == Elements(externals) + {v};
          externals := externals + [v];
          ok := m.EnableVersion(v);
          if !ok {
            AllowedAreVersions(m.requested, prioritized);
            assert v in Allowed(m.requested, prioritized) && v in Elements(Allowed(m.requested, prioritized));
            return;
          }
        }
      }
      assert prioritized[..|prioritized|] == prioritized;
      ok := true;
    }

    /** A version is announced once. */
    method AddVersion(args: VersionArgs) returns (ok: bool)
      modifies this`versionArgs
      ensures ok == (args.version !in old(versionArgs))
      ensures versionArgs == if ok then old(versionArgs)[args.version := args] else old(versionArgs)
    {
      ok := args.version !in versionArgs;
      if ok { versionArgs := versionArgs[args.version := args]; }
    }

    /** So are the arguments of the group. */
    method SetArgs(args: GroupArgs) returns (ok: bool)
      modifies this`groupArgs
      ensures ok == (old(groupArgs) == None)
      ensures groupArgs == if ok then Some(args) else old(groupArgs)
    {
      ok := groupArgs == None;
      if ok { groupArgs := Some(args); }
    }

    /** Register, then Enable. It succeeds exactly if the group is well announced
        and no metadata stands in the way; otherwise no metadata changes. */
    method RegisterAndEnable(m: Manager) returns (ok: bool)
      requires Announced().Named() && m.Valid()
      modifies this`prioritized, m
      ensures m.Valid() && ok == CanEnable(Announced(), m.requested, old(m.groups))
      ensures ok ==> GroupEnabled(Announced(), m.requested, old(m.groups), m.groups, m.enabled)
      ensures old(m.enabled) <= m.enabled && (!ok ==> m.groups == old(m.groups))
      ensures forall h :: groupArgs == None || h != groupArgs.value.name ==> SameAt(old(m.groups), m.groups, h)
    {
      var error := Register(m);
      if error.Some? { return false; }
      ghost var groups := m.groups;
      AllowedElements(m.requested, prioritized);
      AllowedEmptyIff(prioritized, Announced(), m.requested);
      ok := Enable(m);
      OthersSame(groups, groupArgs.value.name, m.groups, Allowed(m.requested, prioritized));
      if ok { ListIsEnabled(prioritized, Announced(), m.requested, groups, m.groups, m.enabled); }
    }
  }

  lemma OthersSame(groups: map<string, seq<GroupVersion>>, g: string, groups': map<string, seq<GroupVersion>>, versions: seq<GroupVersion>)
    requires groups' == groups || groups' == groups[g := versions]
    ensures forall h :: h != g ==> SameAt(groups, groups', h)
  {
  }

  lemma AllowedElements(requested: seq<GroupVersion>, list: seq<GroupVersion>)
    ensures Elements(Allowed(requested, list)) <= Elements(list)
  {
    AllowedAreVersions(requested, list);
  }

  ghost predicate AnyAllowed(announced: Announcement, requested: seq<GroupVersion>)
    requires announced.args.Some?
  {
    exists v :: v in announced.versions && (requested == [] || GroupVersion(announced.args.value.name, v) in requested)
  }

  ghost predicate CanEnable(announced: Announcement, requested: seq<GroupVersion>, groups: map<string, seq<GroupVersion>>) {
    announced.Registrable() && (AnyAllowed(announced, requested) ==> announced.args.value.name !in groups)
  }

  lemma AllowedEmptyIff(list: seq<GroupVersion>, announced: Announcement, requested: seq<GroupVersion>)
    requires announced.args.Some? && Prioritized(list, announced.args.value, announced.versions.Keys)
    ensures Allowed(requested, list) != [] <==> AnyAllowed(announced, requested)
  {
    AllowedAreVersions(requested, list);
    if Allowed(requested, list) != [] {
      var v := Allowed(requested, list)[0];
      assert v in Allowed(requested, list) && v.version in announced.versions;
    }
    if v :| v in announced.versions && (requested == [] || GroupVersion(announced.args.value.name, v) in requested) {
      assert GroupVersion(announced.args.value.name, v) in Allowed(requested, list);
    }
  }

  /** The metadata of a group is now the allowed part of a finished list, or is as
      before if nothing is allowed. */
  ghost predicate GroupEnabled(
    announced: Announcement, requested: seq<GroupVersion>,
    before: map<string, seq<GroupVersion>>, groups: map<string, seq<GroupVersion>>, enabled: set<GroupVersion>)
  {
    announced.args.Some? &&
    exists list :: Prioritized(list, announced.args.value, announced.versions.Keys) &&
      var g, allowed := announced.args.value.name, Allowed(requested, list);
      && (if allowed == [] then SameAt(before, groups, g) else g in groups && groups[g] == allowed)
      && forall v :: v in allowed ==> v in enabled
  }

  lemma ListIsEnabled(
    list: seq<GroupVersion>, announced: Announcement, requested: seq<GroupVersion>,
    before: map<string, seq<GroupVersion>>, groups: map<string, seq<GroupVersion>>, enabled: set<GroupVersion>)
    requires announced.args.Some? && Prioritized(list, announced.args.value, announced.versions.Keys)
    requires var g, allowed := announced.args.value.name, Allowed(requested, list);
      (if allowed == [] then SameAt(before, groups, g) else g in groups && groups[g] == allowed) && Elements(allowed) <= enabled
    ensures GroupEnabled(announced, requested, before, groups, enabled)
  {
    forall v | v in Allowed(requested, list) ensures v in enabled { assert v in Elements(Allowed(requested, list)); }
  }

  /** Enabling other groups in between changes nothing. */
  lemma GroupStaysEnabled(
    announced: Announcement, requested: seq<GroupVersion>, first: map<string, seq<GroupVersion>>,
    before: map<string, seq<GroupVersion>>, groups: map<string, seq<GroupVersion>>, enabled: set<GroupVersion>,
    groups': map<string, seq<GroupVersion>>, enabled': set<GroupVersion>)
    requires GroupEnabled(announced, requested, before, groups, enabled) && enabled <= enabled'
    requires SameAt(first, before, announced.args.value.name) && SameAt(groups, groups', announced.args.value.name)
    ensures GroupEnabled(announced, requested, first, groups', enabled')
  {
  }

  ghost predicate SameAt<K, V>(m: map<K, V>, m': map<K, V>, k: K) {
    (k in m <==> k in m') && (k in m ==> m[k] == m'[k])
  }

  /** The factories by group name. */
  class Registry {
    var factories: map<string, Factory>

    constructor ()
      ensures Valid() && Announcements() == map[]
    {
      factories := map[];
    }

    ghost function Announcements(): map<string, Announcement>
      reads this, factories.Values
    {
      map g | g in factories :: factories[g].Announced()
    }

    /** Each group has its own factory, which holds what was announced for it. */
    ghost predicate Valid()
      reads this, factories.Values
    {
      Separate(factories) && AllCoherent(Announcements())
    }

    /** The other factories are other objects. */
    twostate lemma OnlyOneChanged(g: string)
      requires Separate(factories) && factories == old(factories) && g in factories
      requires forall f :: f in factories.Values && f != factories[g] ==> unchanged(f)
      ensures Announcements() == old(Announcements())[g := factories[g].Announced()]
    {
      forall h | h in factories && h != g ensures factories[h].Announced() == old(factories[h].Announced()) {
        assert factories[h] in factories.Values && factories[h] != factories[g];
      }
    }

    method Group(name: string) returns (f: Factory)
      requires Valid()
      modifies this
      ensures Valid() && name in factories && f == factories[name] && (f in old(factories.Values) || fresh(f))
      ensures f.Announced() == AnnouncedFor(old(Announcements()), name)
      ensures Announcements() == old(Announcements())[name := f.Announced()]
    {
      ghost var before := Announcements();
      if name in factories {
        f := factories[name];
        assert before[name] == f.Announced();
      } else {
        f := new Factory();
        factories := factories[name := f];
        CoherentUpdate(before, name, NOTHING, Announcements());
      }
    }

    /** A version is announced once; otherwise the announcement is an error and
        changes nothing. */
    method AnnounceGroupVersion(args: VersionArgs) returns (ok: bool)
      requires Valid()
      modifies this, factories.Values
      ensures Valid()
      ensures var before := AnnouncedFor(old(Announcements()), args.group);
        && ok == (args.version !in before.versions)
        && Announcements() ==
           if ok then old(Announcements())[args.group := before.(versions := before.versions[args.version := args])]
           else old(Announcements())
    {
      var f := Group(args.group);
      ghost var before := Announcements();
      label Found:
      ok := f.AddVersion(args);
      OnlyOneChanged@Found(args.group);
      CoherentUpdate(before, args.group, f.Announced(), Announcements());
      AnnouncedAgain(old(Announcements()), args.group, f.Announced());
    }

    method AnnounceGroup(args: GroupArgs) returns (ok: bool)
      requires Valid()
      modifies this, factories.Values
      ensures Valid()
      ensures var before := AnnouncedFor(old(Announcements()), args.name);
        && ok == (before.args == None)
        && Announcements() ==
           if ok then old(Announcements())[args.name := before.(args := Some(args))] else old(Announcements())
    {
      var f := Group(args.name);
      ghost var before := Announcements();
      label Found:
      ok := f.SetArgs(args);
      OnlyOneChanged@Found(args.name);
      CoherentUpdate(before, args.name, f.Announced(), Announcements());
      AnnouncedAgain(old(Announcements()), args.name, f.Announced());
    }

    /** A factory assembled by NewGroupMetaFactory, under its own group name. A second
        announcement, also of the same factory, changes nothing. */
    method AnnouncePreconstructedFactory(f: Factory) returns (ok: bool)
      requires Valid()
      requires f.groupArgs.Some? && Coherent(f.groupArgs.value.name, f.Announced())
      modifies this
      ensures Valid() && ok == (f.groupArgs.value.name !in old(factories))
      ensures Announcements() == if ok then old(Announcements())[f.groupArgs.value.name := f.Announced()] else old(Announcements())
    {
      ghost var before := Announcements();
      var name := f.groupArgs.value.name;
      ok := name !in factories;
      if ok {
        forall g | g in factories ensures factories[g] != f {
          assert Coherent(g, before[g]);
        }
        factories := factories[name := f];
        CoherentUpdate(before, name, f.Announced(), Announcements());
      }
    }

    /** RegisterAndEnableAll, for any range order. It succeeds exactly when every
        group is well announced and none has metadata in its way; then every group
        is enabled and the metadata of other groups is as before. However it ends,
        the manager is valid. */
    method RegisterAndEnableAll(m: Manager) returns (ok: bool)
      requires Valid() && m.Valid()
      modifies m, factories.Values
      ensures Valid() && m.Valid() && Announcements() == old(Announcements())
      ensures ok == forall g :: g in Announcements() ==> CanEnable(Announcements()[g], m.requested, old(m.groups))
      ensures forall h :: h !in factories ==> SameAt(old(m.groups), m.groups, h)
      ensures ok ==> forall g :: g in Announcements() ==>
        GroupEnabled(Announcements()[g], m.requested, old(m.groups), m.groups, m.enabled)
    {
      ghost var announced, first := Announcements(), m.groups;
      var order := AnyOrder(factories.Keys);
      ghost var done := {};
      for i := 0 to |order|
        invariant Valid() && m.Valid() && factories == old(factories) && Announcements() == announced
        invariant done == Elements(order[..i])
        invariant Progress(announced, done, m.requested, first, m.groups, m.enabled)
      {
        var g := order[i];
        ElementsOfPrefix(order, i);
        assert g in Elements(order);
        ghost var groups, enabled := m.groups, m.enabled;
        ok := EnableGroup(g, m);
        CanEnableAsBefore(announced[g], g, m.requested, first, groups);
        if !ok {
          StillOthers(first, groups, m.groups, factories.Keys, g);
          return;
        }
        ProgressMore(announced, done, m.requested, first, groups, enabled, g, m.groups, m.enabled);
        done := done + {g};
      }
      assert order[..|order|] == order && done == announced.Keys;
      ok := true;
    }

    method EnableGroup(g: string, m: Manager) returns (ok: bool)
      requires Valid() && m.Valid() && g in factories
      modifies m, factories[g]
      ensures Valid() && m.Valid() && Announcements() == old(Announcements())
      ensures ok == CanEnable(Announcements()[g], m.requested, old(m.groups))
      ensures ok ==> GroupEnabled(Announcements()[g], m.requested, old(m.groups), m.groups, m.enabled)
      ensures old(m.enabled) <= m.enabled && forall h :: h != g ==> SameAt(old(m.groups), m.groups, h)
    {
      assert Coherent(g, Announcements()[g]);
      ok := factories[g].RegisterAndEnable(m);
      OnlyOneChanged(g);
      assert Announcements() == old(Announcements());
    }
  }

  /** The groups done so far could be and are enabled; the others are as at first. */
  ghost predicate Progress(
    announced: map<string, Announcement>, done: set<string>, requested: seq<GroupVersion>,
    first: map<string, seq<GroupVersion>>, groups: map<string, seq<GroupVersion>>, enabled: set<GroupVersion>)
  {
    && (forall h :: h !in done ==> SameAt(first, groups, h))
    && (forall g :: g in done ==> g in announced && CanEnable(announced[g], requested, first))
    && (forall g :: g in done ==> g in announced && GroupEnabled(announced[g], requested, first, groups, enabled))
  }

  lemma CanEnableAsBefore(
    announced: Announcement, g: string, requested: seq<GroupVersion>,
    first: map<string, seq<GroupVersion>>, groups: map<string, seq<GroupVersion>>)
    requires Coherent(g, announced) && SameAt(first, groups, g)
    ensures CanEnable(announced, requested, groups) <==> CanEnable(announced, requested, first)
  {
  }

  lemma ProgressMore(
    announced: map<string, Announcement>, done: set<string>, requested: seq<GroupVersion>, first: map<string, seq<GroupVersion>>,
    groups: map<string, seq<GroupVersion>>, enabled: set<GroupVersion>,
    g: string, groups': map<string, seq<GroupVersion>>, enabled': set<GroupVersion>)
    requires AllCoherent(announced) && g in announced && g !in done && enabled <= enabled'
    requires Progress(announced, done, requested, first, groups, enabled) && CanEnable(announced[g], requested, first)
    requires GroupEnabled(announced[g], requested, groups, groups', enabled')
    requires forall h :: h != g ==> SameAt(groups, groups', h)
    ensures Progress(announced, done + {g}, requested, first, groups', enabled')
  {
    assert Coherent(g, announced[g]) && SameAt(first, groups, g);
    GroupStaysEnabled(announced[g], requested, first, groups, groups', enabled', groups', enabled');
    forall h | h in done ensures h in announced && GroupEnabled(announced[h], requested, first, groups', enabled') {
      assert Coherent(h, announced[h]) && SameAt(first, first, h);
      GroupStaysEnabled(announced[h], requested, first, first, groups, enabled, groups', enabled');
    }
    StillOthers(first, groups, groups', done, g);
  }

  /** Changing one more group leaves those outside alone. */
  lemma StillOthers(first: map<string, seq<GroupVersion>>, groups: map<string, seq<GroupVersion>>,
                    groups': map<string, seq<GroupVersion>>, done: set<string>, g: string)
    requires forall h :: h !in done ==> SameAt(first, groups, h)
    requires forall h :: h != g ==> SameAt(groups, groups', h)
    ensures forall h :: h !in done && h != g ==> SameAt(first, groups', h)
  {
    forall h | h !in done && h != g ensures SameAt(first, groups', h) {
      assert SameAt(first, groups, h) && SameAt(groups, groups', h);
    }
  }

  ghost predicate Coherent(g: string, announced: Announcement) {
    && announced.Named()
    && (forall v :: v in announced.versions ==> announced.versions[v].group == g)
    && (announced.args.Some? ==> announced.args.value.name == g)
  }

  ghost predicate AllCoherent(announcements: map<string, Announcement>) {
    forall g :: g in announcements ==> Coherent(g, announcements[g])
  }

  lemma CoherentUpdate(before: map<string, Announcement>, g: string, announced: Announcement, after: map<string, Announcement>)
    requires AllCoherent(before) && Coherent(g, announced) && after == before[g := announced]
    ensures AllCoherent(after)
  {
  }

  lemma AnnouncedAgain(before: map<string, Announcement>, g: string, announced: Announcement)
    ensures before[g := AnnouncedFor(before, g)][g := announced] == before[g := announced]
    ensures g in before && announced == before[g] ==> before[g := announced] == before
  {
  }

  ghost predicate Separate(factories: map<string, Factory>) {
    forall g, h :: g in factories && h in factories && g != h ==> factories[g] != factories[h]
  }

  function AnnouncedFor(announcements: map<string, Announcement>, g: string): Announcement {
    if g in announcements then announcements[g] else NOTHING
  }

  /** The unprioritized versions: those of the names, each once. */
  ghost predicate Rest(list: seq<GroupVersion>, group: string, names: set<string>) {
    && Distinct(list)
    && forall v :: v in list <==> v.group == group && v.version in names
  }

  lemma {:induction false} CardinalityOfElements(s: seq<string>)
    ensures |Elements(s)| <= |s| && (|Elements(s)| == |s| <==> Distinct(s))
  {
    if s != [] {
      var n := |s| - 1;
      CardinalityOfElements(s[..n]);
      ElementsOfPrefix(s, n);
      assert s[..n + 1] == s;
      if s[n] in s[..n] { assert Elements(s) == Elements(s[..n]); }
    }
  }

  lemma ListIsPrioritized(args: GroupArgs, announced: set<string>, rest: seq<GroupVersion>)
    requires Distinct(args.preference) && Elements(args.preference) <= announced
    requires Rest(rest, args.name, announced - Elements(args.preference))
    ensures Prioritized(Versions(args.name, args.preference) + rest, args, announced)
  {
    var front := Versions(args.name, args.preference);
    forall v: GroupVersion | v.group == args.name && v.version in announced ensures v in front + rest {
      if v.version in args.preference {
        var i :| 0 <= i < |args.preference| && args.preference[i] == v.version;
        assert front[i] == v;
      }
    }
    forall i | 0 <= i < |front| ensures front[i].version in Elements(args.preference) {}
    forall i, j | 0 <= i < |front| && 0 <= j < |rest| ensures front[i] != rest[j] {
      assert rest[j] in rest;
    }
  }
}
