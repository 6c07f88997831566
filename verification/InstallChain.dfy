/** The chain of commands that installs or upgrades a Helm release, with its
    retry counter. Models InstallJobInfo, UpgradeJobInfo and CrossUpgradeJobInfo
    of pkg/command/helm/helm_job.go, InstallHelmRelease and UpgradeHelmRelease of
    pkg/command/helm/helm.go, the command builders of
    pkg/controller/c7nhelmrelease/c7nhelmrelease_controller.go and the dispatch
    of successor commands in pkg/agent/worker.go. Helm is an oracle, and the
    JSON payload of a command is its decoded request. */
module InstallChain {
  import opened Common

  datatype Kind = CrossUpgradeJobInfo | InstallJobInfo | UpgradeJobInfo | InstallRelease | UpgradeRelease

  datatype Request = Request(namespace: string, release: string, chart: string, commit: string, failedCount: int)

  datatype Command = Command(key: string, kind: Kind, req: Request)

  /** JobInfo reports hooks and is followed by more; the others end a chain. */
  datatype Report = JobInfo | Installed | Upgraded | InstallFailed | CrossUpgradeFailed

  datatype Response = Response(key: string, report: Report)

  /** What the calls of one handler do: the chart account cannot be read, the
      Helm action fails (with an EOF error or another, and the request can be
      encoded for another try or not), its result cannot be encoded, or all is well. */
  datatype Outcome = NoAccount | HelmFailed(eof: bool, encodes: bool) | NotEncoded | Done

  const MAX_FAILURES := 5
  const PROMETHEUS := "prometheus-operator"

  function ReleaseKey(namespace: string, release: string): string {
    "env:" + namespace + ".release:" + release
  }

  /** The namespace a handler works with; `namespaceOf` is Packet.Namespace. */
  function Resolved(c: Command, namespaceOf: string -> string): Request {
    if c.req.namespace == "" then c.req.(namespace := namespaceOf(c.key)) else c.req
  }

  /** What one handled command leads to: its successor command, returned or put
      back on the command channel, and its response. */
  datatype Result = Result(successor: Option<Command>, response: Option<Response>)

  /** Failures are reported under the key with the commit appended. */
  function FailureKey(c: Command): string {
    c.key + ".commit:" + c.req.commit
  }

  function Fail(c: Command): Result {
    Result(None, Some(Response(FailureKey(c), InstallFailed)))
  }

  /** An EOF error: try the same stage again, until five tries have failed. */
  function Retry(c: Command, encodes: bool, namespaceOf: string -> string): Result {
    var req := Resolved(c, namespaceOf);
    if req.failedCount == MAX_FAILURES || !encodes then Fail(c)
    else Result(Some(Command(ReleaseKey(req.namespace, req.release), c.kind, req.(failedCount := req.failedCount + 1))), None)
  }

  function Handle(c: Command, o: Outcome, namespaceOf: string -> string): Result {
    match c.kind
    case CrossUpgradeJobInfo =>
      if o.HelmFailed? then Result(None, Some(Response(FailureKey(c), CrossUpgradeFailed)))
      else Result(Some(Command(ReleaseKey(c.req.namespace, c.req.release), InstallJobInfo, c.req)), None)
    case InstallJobInfo =>
      if c.req.chart == PROMETHEUS then Result(Some(c.(kind := InstallRelease)), None)
      else if o.Done? then Result(Some(c.(kind := InstallRelease)), Some(Response(c.key, JobInfo)))
      else if o.HelmFailed? && o.eof then Retry(c, o.encodes, namespaceOf)
      else Fail(c)
    case UpgradeJobInfo =>
      if c.req.chart == PROMETHEUS then Result(Some(c.(kind := UpgradeRelease)), None)
      else if o.Done? then Result(Some(c.(kind := UpgradeRelease)), Some(Response(c.key, JobInfo)))
      else Fail(c)
    case InstallRelease =>
      if o.Done? then Result(None, Some(Response(c.key, Installed)))
      else if o.HelmFailed? && o.eof then Retry(c, o.encodes, namespaceOf)
      else Fail(c)
    case UpgradeRelease =>
      if o.Done? then Result(None, Some(Response(c.key, Upgraded))) else Fail(c)
  }

  /** The builders: a chain starts with a fresh counter and the release's key. */
  function Started(kind: Kind, namespace: string, release: string, chart: string, commit: string): Command {
    Command(ReleaseKey(namespace, release), kind, Request(namespace, release, chart, commit, 0))
  }

  predicate Terminal(r: Response) {
    !r.report.JobInfo?
  }

  /** Every handled command either has a successor or gives a terminal response,
      never both and never neither. */
  lemma OneInFlight(c: Command, o: Outcome, namespaceOf: string -> string)
    ensures var r := Handle(c, o, namespaceOf);
            r.successor.Some? <==> !(r.response.Some? && Terminal(r.response.value))
  {
  }

  // ----- Whole chains -----

  function Stage(kind: Kind): nat {
    match kind
    case CrossUpgradeJobInfo => 2
    case InstallJobInfo => 1
    case UpgradeJobInfo => 1
    case InstallRelease => 0
    case UpgradeRelease => 0
  }

  /** The commands a chain handles and the responses it gives. */
  datatype Trace = Trace(handled: seq<Command>, responses: seq<Response>)

  function Sent(r: Option<Response>): seq<Response> {
    if r.Some? then [r.value] else []
  }

  /** The whole chain from a command on, against any behaviour of Helm. It is
      finite: a successor is in a later stage, or in the same stage with one
      failure more. */
  function Chain(c: Command, helm: nat -> Outcome, i: nat, namespaceOf: string -> string): Trace
    requires c.req.failedCount <= MAX_FAILURES
    decreases Stage(c.kind), MAX_FAILURES - c.req.failedCount
  {
    var r := Handle(c, helm(i), namespaceOf);
    if r.successor.None? then Trace([c], Sent(r.response))
    else
      var rest := Chain(r.successor.value, helm, i + 1, namespaceOf);
      Trace([c] + rest.handled, Sent(r.response) + rest.responses)
  }

  /** All responses before the last are informational, and the last is terminal. */
  predicate EndsOnce(responses: seq<Response>) {
    && responses != [] && Terminal(responses[|responses| - 1])
    && forall i :: 0 <= i < |responses| - 1 ==> !Terminal(responses[i])
  }

  /** A chain gives exactly one terminal response, as its last one, and handles
      at most one command per stage plus one per failure still allowed: the
      counter is carried from stage to stage. */
  lemma {:induction false} ChainEndsOnce(c: Command, helm: nat -> Outcome, i: nat, namespaceOf: string -> string)
    requires c.req.failedCount <= MAX_FAILURES
    ensures EndsOnce(Chain(c, helm, i, namespaceOf).responses)
    ensures |Chain(c, helm, i, namespaceOf).handled| <= Stage(c.kind) + 1 + MAX_FAILURES - c.req.failedCount
    decreases Stage(c.kind), MAX_FAILURES - c.req.failedCount
  {
    var r := Handle(c, helm(i), namespaceOf);
    if r.successor.Some? { ChainEndsOnce(r.successor.value, helm, i + 1, namespaceOf); }
  }

  /** Helm fails with an EOF error and the request can be put back. */
  predicate CanRetry(d: Command, o: Outcome) {
    o == HelmFailed(true, true) && d.req.failedCount != 5
  }

  /** What a command of a chain leads to, from the outcome alone: a cross upgrade
      goes on unless the deletion failed; a job-info stage goes on if it succeeded
      or the chart has none; the stages of an installation are tried again after
      an EOF error; everything else ends the chain. */
  predicate GoesOn(d: Command, o: Outcome) {
    || (d.kind == CrossUpgradeJobInfo && !o.HelmFailed?)
    || (d.kind in {InstallJobInfo, UpgradeJobInfo} && (o == Done || d.req.chart == "prometheus-operator"))
    || (d.kind in {InstallJobInfo, InstallRelease} && CanRetry(d, o))
  }

  /** The next command: the same stage with the counter one higher after an EOF
      error, else the next stage of the same kind of chain with the same request. */
  predicate Follows(d: Command, o: Outcome, e: Command) {
    if d.kind in {InstallJobInfo, InstallRelease} && CanRetry(d, o) && !(d.kind == InstallJobInfo && d.req.chart == "prometheus-operator") then
      && e.kind == d.kind && e.req.failedCount == d.req.failedCount + 1
      && e.req.release == d.req.release && e.req.chart == d.req.chart && e.req.commit == d.req.commit
      && (d.req.namespace != "" ==> e.req.namespace == d.req.namespace)
    else
      && (d.kind == CrossUpgradeJobInfo ==> e.kind == InstallJobInfo)
      && (d.kind == InstallJobInfo ==> e.kind == InstallRelease)
      && (d.kind == UpgradeJobInfo ==> e.kind == UpgradeRelease)
      && d.kind !in {InstallRelease, UpgradeRelease} && e.req == d.req
  }

  /** The report a chain ends with, from its last command and the outcome of that. */
  predicate EndsAs(last: Command, o: Outcome, report: Report) {
    && (report == Installed <==> last.kind == InstallRelease && o == Done)
    && (report == Upgraded <==> last.kind == UpgradeRelease && o == Done)
    && (report == CrossUpgradeFailed <==> last.kind == CrossUpgradeJobInfo)
    && (last.kind == CrossUpgradeJobInfo ==> o.HelmFailed?)
    && report != JobInfo
  }

  /** The job-info stages that succeeded. */
  function Infos(handled: seq<Command>, helm: nat -> Outcome, i: nat): nat {
    if handled == [] then 0
    else
      Info(handled[0], helm(i)) + Infos(handled[1..], helm, i + 1)
  }

  function Info(d: Command, o: Outcome): nat {
    if d.kind in {InstallJobInfo, UpgradeJobInfo} && d.req.chart != "prometheus-operator" && o == Done then 1 else 0
  }

  /** A whole chain, from the outcomes of Helm alone: which commands it handles,
      the first by outcome i, and which responses it gives. */
  ghost predicate Explained(t: Trace, helm: nat -> Outcome, i: nat) {
    && t.handled != [] && t.responses != []
    && (forall k :: 0 <= k < |t.handled| ==> (GoesOn(t.handled[k], helm(i + k)) <==> k < |t.handled| - 1))
    && (forall k :: 0 <= k < |t.handled| - 1 ==> Follows(t.handled[k], helm(i + k), t.handled[k + 1]))
    && EndsAs(t.handled[|t.handled| - 1], helm(i + |t.handled| - 1), t.responses[|t.responses| - 1].report)
    && |t.responses| == Infos(t.handled, helm, i) + 1
  }

  lemma {:induction false} ChainIsExplained(c: Command, helm: nat -> Outcome, i: nat, namespaceOf: string -> string)
    requires c.req.failedCount <= MAX_FAILURES
    ensures Explained(Chain(c, helm, i, namespaceOf), helm, i) && Chain(c, helm, i, namespaceOf).handled[0] == c
    decreases Stage(c.kind), MAX_FAILURES - c.req.failedCount
  {
    var r := Handle(c, helm(i), namespaceOf);
    HandleIsExplained(c, helm(i), namespaceOf);
    if r.successor.Some? {
      ChainIsExplained(r.successor.value, helm, i + 1, namespaceOf);
      ExplainedMore(c, r, Chain(r.successor.value, helm, i + 1, namespaceOf), helm, i);
    } else {
      ExplainedOne(c, r, helm, i);
    }
  }

  /** What HandleIsExplained says of the first command. */
  ghost predicate FirstStep(c: Command, o: Outcome, r: Result) {
    && (r.successor.Some? <==> GoesOn(c, o))
    && (r.successor.Some? ==> Follows(c, o, r.successor.value))
    && (r.successor.None? ==> r.response.Some? && EndsAs(c, o, r.response.value.report))
    && (r.successor.Some? ==> |Sent(r.response)| == Info(c, o))
  }

  lemma ExplainedOne(c: Command, r: Result, helm: nat -> Outcome, i: nat)
    requires FirstStep(c, helm(i), r) && r.successor.None?
    ensures Explained(Trace([c], Sent(r.response)), helm, i)
  {
    assert [c][1..] == [] && helm(i + 0) == helm(i);
    assert c.kind in {InstallJobInfo, UpgradeJobInfo} && helm(i) == Done ==> GoesOn(c, helm(i));
  }

  lemma ExplainedMore(c: Command, r: Result, rest: Trace, helm: nat -> Outcome, i: nat)
    requires FirstStep(c, helm(i), r) && r.successor.Some?
    requires Explained(rest, helm, i + 1) && rest.handled[0] == r.successor.value
    ensures Explained(Trace([c] + rest.handled, Sent(r.response) + rest.responses), helm, i)
  {
    var handled := [c] + rest.handled;
    assert handled[1..] == rest.handled && helm(i + 0) == helm(i);
    StepsMore(c, r, rest, helm, i);
    assert helm(i + |handled| - 1) == helm(i + 1 + |rest.handled| - 1);
  }

  lemma StepsMore(c: Command, r: Result, rest: Trace, helm: nat -> Outcome, i: nat)
    requires FirstStep(c, helm(i), r) && r.successor.Some?
    requires Explained(rest, helm, i + 1) && rest.handled[0] == r.successor.value
    ensures var handled := [c] + rest.handled;
      && (forall k :: 0 <= k < |handled| ==> (GoesOn(handled[k], helm(i + k)) <==> k < |handled| - 1))
      && (forall k :: 0 <= k < |handled| - 1 ==> Follows(handled[k], helm(i + k), handled[k + 1]))
  {
    var handled := [c] + rest.handled;
    assert helm(i + 0) == helm(i);
    forall k | 0 <= k < |handled| ensures GoesOn(handled[k], helm(i + k)) <==> k < |handled| - 1 {
      if k > 0 { assert handled[k] == rest.handled[k - 1] && helm(i + k) == helm(i + 1 + (k - 1)); }
    }
    forall k | 0 <= k < |handled| - 1 ensures Follows(handled[k], helm(i + k), handled[k + 1]) {
      if k > 0 { assert handled[k] == rest.handled[k - 1] && helm(i + k) == helm(i + 1 + (k - 1)); }
    }
  }

  lemma HandleIsExplained(c: Command, o: Outcome, namespaceOf: string -> string)
    ensures FirstStep(c, o, Handle(c, o, namespaceOf))
  {
  }

  /** So an installation never turns into an upgrade nor the other way round, and
      only the first command deletes for a cross upgrade. */
  lemma {:induction false} StagesStayInKind(t: Trace, helm: nat -> Outcome, i: nat, k: nat)
    requires Explained(t, helm, i) && k < |t.handled|
    ensures t.handled[0].kind in {UpgradeJobInfo, UpgradeRelease} <==> t.handled[k].kind in {UpgradeJobInfo, UpgradeRelease}
    ensures t.handled[k].kind == CrossUpgradeJobInfo ==> k == 0
  {
    if k > 0 {
      StagesStayInKind(t, helm, i, k - 1);
      assert Follows(t.handled[k - 1], helm(i + (k - 1)), t.handled[k]);
    }
  }

  /** With a Helm that does not fail, the last response reports success. */
  lemma SuccessIsReported(t: Trace, helm: nat -> Outcome, i: nat)
    requires Explained(t, helm, i) && forall k :: helm(k) == Done
    ensures t.responses[|t.responses| - 1].report == if t.handled[0].kind in {UpgradeJobInfo, UpgradeRelease} then Upgraded else Installed
  {
    var n := |t.handled| - 1;
    StagesStayInKind(t, helm, i, n);
    assert !GoesOn(t.handled[n], helm(i + n)) && helm(i + n) == Done;
  }

  /** The counter never decreases along a chain, so at most five of its commands
      are EOF retries, over all stages together. */
  function Retries(handled: seq<Command>): nat {
    if |handled| <= 1 then 0
    else (if handled[0].kind == handled[1].kind then 1 else 0) + Retries(handled[1..])
  }

  lemma {:induction false} RetriesAreBounded(c: Command, helm: nat -> Outcome, i: nat, namespaceOf: string -> string)
    requires c.req.failedCount <= MAX_FAILURES
    ensures Chain(c, helm, i, namespaceOf).handled[0] == c
    ensures Retries(Chain(c, helm, i, namespaceOf).handled) <= MAX_FAILURES - c.req.failedCount
    decreases Stage(c.kind), MAX_FAILURES - c.req.failedCount
  {
    var r := Handle(c, helm(i), namespaceOf);
    if r.successor.Some? {
      RetriesAreBounded(r.successor.value, helm, i + 1, namespaceOf);
      var t := Chain(c, helm, i, namespaceOf);
      assert t.handled[1..] == Chain(r.successor.value, helm, i + 1, namespaceOf).handled;
    }
  }

  /** A command whose key names its own release, as the builders make it. */
  predicate Named(c: Command) {
    c.req.namespace != "" && c.key == ReleaseKey(c.req.namespace, c.req.release)
  }

  /** The key and commit of a chain never change: every command has them, and
      every response has the key, or the failure key made from both. */
  lemma {:induction false} KeyIsKept(c: Command, helm: nat -> Outcome, i: nat, namespaceOf: string -> string)
    requires c.req.failedCount <= MAX_FAILURES && Named(c)
    ensures forall d :: d in Chain(c, helm, i, namespaceOf).handled ==> d.key == c.key && Named(d) && d.req.commit == c.req.commit
    ensures forall r :: r in Chain(c, helm, i, namespaceOf).responses ==>
              r.key == if r.report.InstallFailed? || r.report.CrossUpgradeFailed? then FailureKey(c) else c.key
    decreases Stage(c.kind), MAX_FAILURES - c.req.failedCount
  {
    var r := Handle(c, helm(i), namespaceOf);
    if r.successor.Some? { KeyIsKept(r.successor.value, helm, i + 1, namespaceOf); }
  }

  /** Every chain that the reconciler starts for a release, against any behaviour
      of Helm: at most eight commands, among them at most five retries, then one
      terminal response, all under the key of the release. */
  lemma StartedChain(kind: Kind, namespace: string, release: string, chart: string, commit: string,
                     helm: nat -> Outcome, namespaceOf: string -> string)
    requires namespace != ""
    ensures var c := Started(kind, namespace, release, chart, commit);
      var t := Chain(c, helm, 0, namespaceOf);
      && EndsOnce(t.responses) && |t.handled| <= 8 && Retries(t.handled) <= 5
      && (forall d :: d in t.handled ==> d.key == ReleaseKey(namespace, release) && d.req.commit == commit)
      && (forall r :: r in t.responses ==>
            r.key == ReleaseKey(namespace, release) + if r.report.InstallFailed? || r.report.CrossUpgradeFailed? then ".commit:" + commit else "")
  {
    var c := Started(kind, namespace, release, chart, commit);
    ChainEndsOnce(c, helm, 0, namespaceOf);
    RetriesAreBounded(c, helm, 0, namespaceOf);
    KeyIsKept(c, helm, 0, namespaceOf);
    assert FailureKey(c) == c.key + (".commit:" + commit) && c.key + "" == c.key;
  }

  /** And its responses are those that the outcomes call for. */
  lemma StartedChainIsExplained(kind: Kind, namespace: string, release: string, chart: string, commit: string,
                                helm: nat -> Outcome, namespaceOf: string -> string)
    ensures var t := Chain(Started(kind, namespace, release, chart, commit), helm, 0, namespaceOf);
      && Explained(t, helm, 0)
      && ((forall k :: helm(k) == Done) ==>
            t.responses[|t.responses| - 1].report == if kind in {UpgradeJobInfo, UpgradeRelease} then Upgraded else Installed)
  {
    var c := Started(kind, namespace, release, chart, commit);
    ChainIsExplained(c, helm, 0, namespaceOf);
    if forall k :: helm(k) == Done { SuccessIsReported(Chain(c, helm, 0, namespaceOf), helm, 0); }
  }

  // ----- Exactly when chains end -----

  /** The command in flight after n steps, if any. */
  function InFlight(c: Command, helm: nat -> Outcome, n: nat, namespaceOf: string -> string): Option<Command> {
    if n == 0 then Some(c)
    else match InFlight(c, helm, n - 1, namespaceOf)
      case None => None
      case Some(d) => Handle(d, helm(n - 1), namespaceOf).successor
  }

  ghost predicate Terminates(c: Command, helm: nat -> Outcome, namespaceOf: string -> string) {
    exists n :: InFlight(c, helm, n, namespaceOf).None?
  }

  predicate Upgrades(kind: Kind) {
    kind.UpgradeJobInfo? || kind.UpgradeRelease?
  }

  lemma {:induction false} EndsFrom(c: Command, helm: nat -> Outcome, i: nat, d: Command, namespaceOf: string -> string)
    requires InFlight(c, helm, i, namespaceOf) == Some(d) && (d.req.failedCount <= MAX_FAILURES || Upgrades(d.kind))
    ensures Terminates(c, helm, namespaceOf)
    decreases Stage(d.kind), if d.req.failedCount <= MAX_FAILURES then MAX_FAILURES - d.req.failedCount else 0
  {
    var r := Handle(d, helm(i), namespaceOf);
    assert InFlight(c, helm, i + 1, namespaceOf) == r.successor;
    if r.successor.Some? { EndsFrom(c, helm, i + 1, r.successor.value, namespaceOf); }
  }

  /** A Helm whose charts fail with EOF for ever, after the deletion that a
      cross upgrade starts with. */
  function Eof(kind: Kind): nat -> Outcome {
    n => if n == 0 && kind.CrossUpgradeJobInfo? then Done else HelmFailed(true, true)
  }

  /** Past the limit the counter is never equal to it, and the command is
      retried for ever. */
  lemma {:induction false} NeverEnds(c: Command, n: nat, namespaceOf: string -> string)
    requires !Upgrades(c.kind) && c.req.failedCount > MAX_FAILURES
    ensures var d := InFlight(c, Eof(c.kind), n + 1, namespaceOf);
            d.Some? && (d.value.kind.InstallJobInfo? || d.value.kind.InstallRelease?) && d.value.req.failedCount > MAX_FAILURES
  {
    if n > 0 {
      NeverEnds(c, n - 1, namespaceOf);
    } else {
      assert InFlight(c, Eof(c.kind), 0, namespaceOf) == Some(c);
    }
  }

  /** Exactly the commands of an upgrade, or with a counter up to the limit, end
      against every behaviour of Helm; in particular all chains that start afresh. */
  lemma EndsIffWithinLimit(c: Command, namespaceOf: string -> string)
    ensures (forall helm :: Terminates(c, helm, namespaceOf)) <==> Upgrades(c.kind) || c.req.failedCount <= MAX_FAILURES
  {
    if Upgrades(c.kind) || c.req.failedCount <= MAX_FAILURES {
      forall helm ensures Terminates(c, helm, namespaceOf) { EndsFrom(c, helm, 0, c, namespaceOf); }
    } else {
      forall n: nat ensures InFlight(c, Eof(c.kind), n, namespaceOf).Some? {
        if n > 0 { NeverEnds(c, n - 1, namespaceOf); }
      }
      assert !Terminates(c, Eof(c.kind), namespaceOf);
    }
  }

  // ----- The worker: any number of chains at once -----

  function CommandsOf(id: nat, cs: seq<(nat, Command)>): nat {
    if cs == [] then 0 else (if cs[0].0 == id then 1 else 0) + CommandsOf(id, cs[1..])
  }

  function TerminalsOf(id: nat, rs: seq<(nat, Response)>): nat {
    if rs == [] then 0 else (if rs[0].0 == id && Terminal(rs[0].1) then 1 else 0) + TerminalsOf(id, rs[1..])
  }

  lemma {:induction false} CommandsOfConcat(id: nat, a: seq<(nat, Command)>, b: seq<(nat, Command)>)
    ensures CommandsOf(id, a + b) == CommandsOf(id, a) + CommandsOf(id, b)
  {
    if a == [] { assert a + b == b; } else {
      CommandsOfConcat(id, a[1..], b);
      assert (a + b)[1..] == a[1..] + b;
    }
  }

  lemma {:induction false} TerminalsOfConcat(id: nat, a: seq<(nat, Response)>, b: seq<(nat, Response)>)
    ensures TerminalsOf(id, a + b) == TerminalsOf(id, a) + TerminalsOf(id, b)
  {
    if a == [] { assert a + b == b; } else {
      TerminalsOfConcat(id, a[1..], b);
      assert (a + b)[1..] == a[1..] + b;
    }
  }

  lemma OneAmong(id: nat, front: seq<(nat, Command)>, c: (nat, Command), back: seq<(nat, Command)>, more: seq<(nat, Command)>)
    ensures CommandsOf(id, front + back + more) ==
            CommandsOf(id, front + ([c] + back)) - (if c.0 == id then 1 else 0) + CommandsOf(id, more)
  {
    CommandsOfConcat(id, front + back, more);
    CommandsOfConcat(id, front, back);
    CommandsOfConcat(id, front, [c] + back);
    assert ([c] + back)[1..] == back;
  }

  /** Handling one of the commands in flight: it goes, its successor comes. */
  lemma HandledOne(id: nat, cs: seq<(nat, Command)>, k: nat, more: seq<(nat, Command)>)
    requires k < |cs|
    ensures CommandsOf(id, cs[..k] + cs[k + 1..] + more) ==
            CommandsOf(id, cs) - (if cs[k].0 == id then 1 else 0) + CommandsOf(id, more)
  {
    OneAmong(id, cs[..k], cs[k], cs[k + 1..], more);
    assert cs[..k] + ([cs[k]] + cs[k + 1..]) == cs;
  }

  /** The worker with its channels. Commands are tagged with the chain they
      belong to; they are handled concurrently, so in any order. */
  class Worker {
    var commands: seq<(nat, Command)>
    var responses: seq<(nat, Response)>
    var started: nat

    /** Every started chain has one command in flight or one terminal response. */
    ghost predicate Valid()
      reads this
    {
      forall id: nat :: CommandsOf(id, commands) + TerminalsOf(id, responses) == if id < started then 1 else 0
    }

    constructor ()
      ensures Valid() && started == 0
    {
      commands, responses, started := [], [], 0;
    }

    /** The reconciler sends the first command of a chain. */
    method Start(c: Command)
      requires Valid()
      modifies this
      ensures Valid() && started == old(started) + 1 && commands == old(commands) + [(old(started), c)]
      ensures responses == old(responses)
    {
      forall id: nat ensures CommandsOf(id, commands + [(started, c)]) == CommandsOf(id, commands) + if id == started then 1 else 0 {
        CommandsOfConcat(id, commands, [(started, c)]);
      }
      commands, started := commands + [(started, c)], started + 1;
    }

    /** runWorker on the k-th command: run the handler, send its successor and
        its response. */
    method Dispatch(k: nat, o: Outcome, namespaceOf: string -> string)
      requires Valid() && k < |commands|
      modifies this
      ensures Valid() && started == old(started)
      ensures var (id, c) := old(commands)[k]; var r := Handle(c, o, namespaceOf);
              && commands == old(commands)[..k] + old(commands)[k + 1..] + (if r.successor.Some? then [(id, r.successor.value)] else [])
              && responses == old(responses) + (if r.response.Some? then [(id, r.response.value)] else [])
    {
      var (id, c) := commands[k];
      var r := Handle(c, o, namespaceOf);
      OneInFlight(c, o, namespaceOf);
      var more: seq<(nat, Command)> := if r.successor.Some? then [(id, r.successor.value)] else [];
      var sent: seq<(nat, Response)> := if r.response.Some? then [(id, r.response.value)] else [];
      forall j: nat
        ensures CommandsOf(j, commands[..k] + commands[k + 1..] + more) + TerminalsOf(j, responses + sent) ==
                CommandsOf(j, commands) + TerminalsOf(j, responses)
      {
        HandledOne(j, commands, k, more);
        TerminalsOfConcat(j, responses, sent);
      }
      commands, responses := commands[..k] + commands[k + 1..] + more, responses + sent;
    }
  }
}
