/** Which checks Polaris runs on a pod or container and what it records
    (pkg/polaris/validator/schema.go, pkg/polaris/config). The JSON schema engine
    is the map of verdicts: absent when the engine returns an error. */
module PolarisChecks {
  import opened Common
  import opened PolarisSummary
  import opened ResourceKeys

  datatype Target = ContainerTarget | PodTarget

  datatype SupportedController =
    | Unsupported | Deployments | StatefulSets | DaemonSets | Jobs | CronJobs | ReplicationControllers | NakedPods

  /** Singular or plural, in any case. */
  function ControllerFromString(s: string): SupportedController {
    var lower := ToLower(s);
    if lower in {"deployment", "deployments"} then Deployments
    else if lower in {"statefulset", "statefulsets"} then StatefulSets
    else if lower in {"daemonset", "daemonsets"} then DaemonSets
    else if lower in {"job", "jobs"} then Jobs
    else if lower in {"cronjob", "cronjobs"} then CronJobs
    else if lower in {"replicationcontroller", "replicationcontrollers"} then ReplicationControllers
    else if lower in {"nakedpod", "nakedpods"} then NakedPods
    else Unsupported
  }

  datatype Filter = Filter(included: seq<string>, excluded: seq<string>)

  datatype Check = Check(
    id: string, category: string, target: Target,
    controllers: Filter, containers: Filter,
    successMessage: string, failureMessage: string)

  datatype Exemption = Exemption(rules: seq<string>, controllerNames: seq<string>)

  datatype Configuration = Configuration(
    checks: map<string, Severity>,
    customChecks: map<string, Check>,
    builtInChecks: map<string, Check>,
    exemptions: seq<Exemption>,
    disallowExemptions: bool)

  /** The part of a controller the checks look at; exempt are the IDs of the
      checks its annotations opt out of. */
  datatype Controller = Controller(name: string, kind: SupportedController, exempt: set<string>)

  /** Both init and Configuration.Parse store a check under its own ID. */
  ghost predicate WellFormed(conf: Configuration) {
    && (forall id :: id in conf.customChecks ==> conf.customChecks[id].id == id)
    && (forall id :: id in conf.builtInChecks ==> conf.builtInChecks[id].id == id)
  }

  function Lookup(conf: Configuration, id: string): Option<Check> {
    if id in conf.customChecks then Some(conf.customChecks[id])
    else if id in conf.builtInChecks then Some(conf.builtInChecks[id])
    else None
  }

  predicate Exempted(conf: Configuration, id: string, controllerName: string) {
    exists i, j :: 0 <= i < |conf.exemptions| && 0 <= j < |conf.exemptions[i].controllerNames| &&
      id in conf.exemptions[i].rules && conf.exemptions[i].controllerNames[j] <= controllerName
  }

  predicate ConfActionable(conf: Configuration, id: string, controllerName: string) {
    && id in conf.checks && conf.checks[id] in {Warning, Error}
    && (conf.disallowExemptions || !Exempted(conf, id, controllerName))
  }

  predicate Names(names: seq<string>, kind: SupportedController) {
    exists i :: 0 <= i < |names| && ControllerFromString(names[i]) == kind
  }

  predicate PassesKind(filter: Filter, kind: SupportedController) {
    (filter.included == [] || Names(filter.included, kind)) && !Names(filter.excluded, kind)
  }

  predicate PassesContainer(filter: Filter, name: string) {
    (filter.included == [] || name in filter.included) && name !in filter.excluded
  }

  predicate CheckActionable(check: Check, target: Target, kind: SupportedController, isInit: bool) {
    && check.target == target
    && PassesKind(check.controllers, kind)
    && (check.target == ContainerTarget ==> PassesContainer(check.containers, if isInit then "initContainer" else "container"))
  }

  datatype Resolved = NotFound | Skip | Run(check: Check)

  function ResolveCheck(conf: Configuration, id: string, controller: Controller, target: Target, isInit: bool): Resolved {
    match Lookup(conf, id)
    case None => NotFound
    case Some(check) =>
      if !ConfActionable(conf, check.id, controller.name) || !CheckActionable(check, target, controller.kind, isInit) then Skip
      else Run(check)
  }

  function MakeResult(conf: Configuration, check: Check, passes: bool): ResultMessage
    requires check.id in conf.checks
  {
    ResultMessage(check.id, if passes then check.successMessage else check.failureMessage, passes, conf.checks[check.id], check.category)
  }

  /** One run over the configured checks. */
  datatype Audit = Audit(
    conf: Configuration, controller: Controller, target: Target, isInit: bool, verdicts: map<string, bool>)
  {
    predicate Considers(id: string) {
      id in conf.checks && id !in controller.exempt
    }

    function Resolve(id: string): Resolved {
      ResolveCheck(conf, id, controller, target, isInit)
    }

    predicate Applies(id: string) {
      Considers(id) && Resolve(id).Run?
    }

    /** The run cannot go on at this check. */
    predicate Breaks(id: string) {
      Considers(id) && (Resolve(id) == NotFound || (Resolve(id).Run? && id !in verdicts))
    }

    /** The result of an applied check. */
    ghost predicate Recorded(id: string, result: ResultMessage)
    {
      && Applies(id) && id in verdicts && result.id == id && result.success == verdicts[id]
      && result.severity == conf.checks[id] && result.severity in {Warning, Error}
      && result.category == Resolve(id).check.category
      && result.message == if verdicts[id] then Resolve(id).check.successMessage else Resolve(id).check.failureMessage
    }

    ghost predicate Done(rs: ResultSet, seen: set<string>) {
      && (forall id :: id in rs <==> id in seen && Applies(id))
      && (forall id :: id in rs ==> Recorded(id, rs[id]))
    }
  }

  /** Exactly which checks apply: a configured one with severity warning or error,
      neither opted out of by annotation nor exempted by a rule for a prefix of the
      controller's name, for the target at hand, and whose filters include and do
      not exclude the controller's kind and, for a container, its sort. A custom
      check takes the place of a built-in one with the same ID. */
  lemma AppliesIff(audit: Audit, id: string)
    requires WellFormed(audit.conf)
    ensures audit.Applies(id) <==>
      && id in audit.conf.checks && audit.conf.checks[id] in {Warning, Error} && id !in audit.controller.exempt
      && (id in audit.conf.customChecks || id in audit.conf.builtInChecks)
      && var check := if id in audit.conf.customChecks then audit.conf.customChecks[id] else audit.conf.builtInChecks[id];
      && check.target == audit.target
      && !(exists i :: 0 <= i < |check.controllers.excluded| && ControllerFromString(check.controllers.excluded[i]) == audit.controller.kind)
      && (check.controllers.included != [] ==>
            exists i :: 0 <= i < |check.controllers.included| && ControllerFromString(check.controllers.included[i]) == audit.controller.kind)
      && (audit.target == ContainerTarget ==>
            var sort := if audit.isInit then "initContainer" else "container";
            sort !in check.containers.excluded && (check.containers.included != [] ==> sort in check.containers.included))
      && (!audit.conf.disallowExemptions ==> !ExemptedByRule(audit.conf, id, audit.controller.name))
  {
    ExemptedIff(audit.conf, id, audit.controller.name);
    if id in audit.conf.customChecks || id in audit.conf.builtInChecks {
      var check := Lookup(audit.conf, id).value;
      assert check.id == id;
      PassesKindIff(check.controllers, audit.controller.kind);
    }
  }

  lemma PassesKindIff(filter: Filter, kind: SupportedController)
    ensures PassesKind(filter, kind) <==>
      && !(exists i :: 0 <= i < |filter.excluded| && ControllerFromString(filter.excluded[i]) == kind)
      && (filter.included != [] ==> exists i :: 0 <= i < |filter.included| && ControllerFromString(filter.included[i]) == kind)
  {
  }

  /** Some exemption names the check and a prefix of the controller's name. */
  ghost predicate ExemptedByRule(conf: Configuration, id: string, name: string) {
    exists e, prefix :: e in conf.exemptions && id in e.rules && prefix in e.controllerNames && prefix <= name
  }

  lemma ExemptedIff(conf: Configuration, id: string, name: string)
    ensures Exempted(conf, id, name) <==> ExemptedByRule(conf, id, name)
  {
    if e, prefix :| e in conf.exemptions && id in e.rules && prefix in e.controllerNames && prefix <= name {
      var i :| 0 <= i < |conf.exemptions| && conf.exemptions[i] == e;
      var j :| 0 <= j < |e.controllerNames| && e.controllerNames[j] == prefix;
      assert id in conf.exemptions[i].rules && conf.exemptions[i].controllerNames[j] <= name;
    }
    if i, j :| 0 <= i < |conf.exemptions| && 0 <= j < |conf.exemptions[i].controllerNames| &&
               id in conf.exemptions[i].rules && conf.exemptions[i].controllerNames[j] <= name {
      assert conf.exemptions[i] in conf.exemptions && conf.exemptions[i].controllerNames[j] in conf.exemptions[i].controllerNames;
    }
  }

  /** The printed name of a kind, which is also its JSON form. */
  function KindString(kind: SupportedController): string {
    match kind
    case Unsupported => "Unsupported"
    case Deployments => "Deployment"
    case StatefulSets => "StatefulSet"
    case DaemonSets => "DaemonSet"
    case Jobs => "Job"
    case CronJobs => "CronJob"
    case ReplicationControllers => "ReplicationController"
    case NakedPods => "NakedPod"
  }

  /** The names of the look-up table. */
  ghost predicate LowerNames(kind: SupportedController, singular: string, plural: string) {
    ToLower(KindString(kind)) == singular && ToLower(KindString(kind)) + "s" == plural
  }

  lemma SomeLowerNames()
    ensures LowerNames(Deployments, "deployment", "deployments") && LowerNames(StatefulSets, "statefulset", "statefulsets")
    ensures LowerNames(DaemonSets, "daemonset", "daemonsets") && LowerNames(Jobs, "job", "jobs")
  {
  }

  lemma OtherLowerNames()
    ensures LowerNames(CronJobs, "cronjob", "cronjobs") && LowerNames(NakedPods, "nakedpod", "nakedpods")
    ensures LowerNames(ReplicationControllers, "replicationcontroller", "replicationcontrollers")
  {
  }

  /** A string is read as a supported kind exactly when it is, in any case, the
      printed name of the kind or its plural; so printing and reading goes round. */
  lemma KindNames(s: string, kind: SupportedController)
    requires kind != Unsupported
    ensures ControllerFromString(s) == kind <==> ToLower(s) == ToLower(KindString(kind)) || ToLower(s) == ToLower(KindString(kind)) + "s"
  {
    SomeLowerNames();
    OtherLowerNames();
  }

  lemma RunIsRecorded(audit: Audit, id: string)
    requires WellFormed(audit.conf) && audit.Applies(id) && id in audit.verdicts
    ensures var check := audit.Resolve(id).check;
      check.id == id && audit.Recorded(id, MakeResult(audit.conf, check, audit.verdicts[id]))
  {
  }

  /** The shared loop of applyPodSchemaChecks and applyContainerSchemaChecks. It
      fails exactly when a check that is not opted out of is unknown, or applies
      and cannot be evaluated; otherwise it records exactly the applying checks. */
  method ApplyChecks(audit: Audit) returns (results: Option<ResultSet>)
    requires WellFormed(audit.conf)
    ensures results == None <==> exists id :: audit.Breaks(id)
    ensures results.Some? ==> audit.Done(results.value, audit.conf.checks.Keys)
  {
    var order := AnyOrder(audit.conf.checks.Keys);
    var rs: ResultSet := map[];
    ghost var seen := {};
    for i := 0 to |order|
      invariant seen == Elements(order[..i])
      invariant forall id :: id in seen ==> !audit.Breaks(id)
      invariant audit.Done(rs, seen)
    {
      var id := order[i];
      ElementsOfPrefix(order, i);
      assert id in Elements(order);
      seen := seen + {id};
      if id !in audit.controller.exempt {
        match audit.Resolve(id)
        case NotFound =>
          assert audit.Breaks(id);
          return None;
        case Skip =>
        case Run(check) =>
          if id !in audit.verdicts {
            assert audit.Breaks(id);
            return None;
          }
          RunIsRecorded(audit, id);
          rs := rs[check.id := MakeResult(audit.conf, check, audit.verdicts[id])];
      }
    }
    assert order[..|order|] == order;
    results := Some(rs);
  }

  /** So errors, warnings and successes partition what the loops build: the list of
      GetSortedResults is complete and its parts are as long as the summary says. */
  lemma BuiltSetsArePartitioned(audit: Audit, rs: ResultSet)
    requires audit.Done(rs, audit.conf.checks.Keys)
    ensures Those(rs, Stray) == {}
    ensures |rs| == |Those(rs, Failed)| + |Those(rs, Warned)| + |Those(rs, Success)|
    ensures Tallied(rs, rs.Keys) == Counts(|Those(rs, Success)|, |Those(rs, Warned)|, |Those(rs, Failed)|)
  {
    forall id | id in rs ensures StatusOf(rs[id]) != Stray { assert audit.Recorded(id, rs[id]); }
    assert Those(rs, Stray) == {};
    Partition(rs);
  }

  /** No check ID occurs both among the pod results and among the results of a
      container, under one configuration. */
  lemma PodAndContainerResultsAreDisjoint(pod: Audit, container: Audit, rs: ResultSet, rs': ResultSet)
    requires pod.conf == container.conf && pod.target == PodTarget && container.target == ContainerTarget
    requires pod.Done(rs, pod.conf.checks.Keys) && container.Done(rs', container.conf.checks.Keys)
    ensures rs.Keys !! rs'.Keys
  {
    forall id | id in rs ensures id !in rs' {
      assert pod.Applies(id) && !container.Applies(id);
    }
  }
}
