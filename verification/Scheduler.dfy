/** The sync scheduler of one namespace as a state machine: the sync loop, the
    interval worker, the mirror's refreshes, and the capacity-1 channels and the
    timer between them. Models syncLoop, AskForSync and SyncInterval of
    pkg/gitops/gitops_sync.go, Refresh, refreshed, Revision and the way to the
    ready status of pkg/git/repo.go, and DoSync of pkg/command/gitops/gitops.go. */
module Scheduler {

  /** Where the sync loop is: in its select, sending to the interval worker,
      about to ask for the revision, or inside doSync before the clone, after
      it, or after the push of the sync tag. */
  datatype Loop = Waiting | Sending | Noticed | Syncing | Cloned(rev: int) | Pushed

  datatype Timer = Armed | Fired | Off

  /** Revisions are numbered by the order in which the devops tag takes them;
      NONE stands for the empty revision. */
  const NONE := -1

  datatype State = State(
    ready: bool,      // the mirror has been cloned and can be written to
    mirror: int,      // the devops tag in the mirror
    notice: bool,     // a value is in repo.C
    soon: bool,       // a value is in syncSoon
    head: int,        // syncHead
    synced: int,      // the revision of the sync tag
    loop: Loop,
    timer: Timer,
    queued: nat,      // SyncInfo values of this namespace in SyncChan
    handling: bool)   // the interval worker is refreshing this namespace

  /** `ok` tells whether the call that the event stands for succeeds, and `rev`
      where a successful fetch finds the devops tag. */
  datatype Event =
    | Fire | ReadTimer | SendTick | TakeTick | Handle(ok: bool, rev: int)
    | BecomeReady(rev: int) | Refresh(ok: bool, rev: int)
    | ReadNotice | Revision(ok: bool)
    | ReadSoon | Clone(ok: bool) | Apply(ok: bool) | LastRefresh(ok: bool, rev: int)

  function Initial(synced: int): State {
    State(false, NONE, false, true, NONE, synced, Waiting, Armed, 0, false)
  }

  predicate Enabled(s: State, e: Event) {
    match e
    case Fire => s.timer.Armed?
    case ReadTimer => s.loop.Waiting? && s.timer.Fired?
    case SendTick => s.loop.Sending?
    case TakeTick => s.queued > 0 && !s.handling
    case Handle(ok, rev) => s.handling && (ok ==> s.ready)
    case BecomeReady(rev) => !s.ready
    case Refresh(ok, rev) => ok ==> s.ready
    case ReadNotice => s.loop.Waiting? && s.notice
    case Revision(ok) => s.loop.Noticed? && (ok ==> s.ready)
    case ReadSoon => s.loop.Waiting? && s.soon
    case Clone(ok) => s.loop.Syncing? && (ok ==> s.ready)
    case Apply(ok) => s.loop.Cloned?
    case LastRefresh(ok, rev) => s.loop.Pushed?
  }

  /** Repo.Refresh: fetch, then a non-blocking send on C. */
  function Fetched(s: State, rev: int): State {
    s.(mirror := rev, notice := true)
  }

  /** The end of the syncSoon branch, whatever doSync returned. */
  function Rearmed(s: State): State {
    s.(loop := Waiting, timer := Armed)
  }

  function Step(s: State, e: Event): State {
    match e
    case Fire => s.(timer := Fired)
    case ReadTimer => s.(timer := Off, loop := Sending)
    case SendTick => s.(loop := Waiting, queued := s.queued + 1)
    case TakeTick => if s.queued > 0 then s.(queued := s.queued - 1, handling := true) else s
    case Handle(ok, rev) =>
      if ok then Fetched(s.(handling := false), rev)
      // Stop reports false unless the timer was running; only then is it reset.
      else s.(handling := false, timer := if s.timer.Armed? then Off else Armed)
    case BecomeReady(rev) => Fetched(s.(ready := true), rev)
    case Refresh(ok, rev) => if ok then Fetched(s, rev) else s
    case ReadNotice => s.(notice := false, loop := Noticed)
    case Revision(ok) =>
      if !ok then s.(loop := Waiting)
      else if s.mirror != s.head then s.(head := s.mirror, soon := true, loop := Waiting)
      else Rearmed(s)
    case ReadSoon => s.(soon := false, timer := Off, loop := Syncing)
    case Clone(ok) => if ok then s.(loop := Cloned(s.mirror)) else Rearmed(s)
    case Apply(ok) =>
      if !s.loop.Cloned? then s
      else if !ok || s.loop.rev == s.synced then Rearmed(s)
      else s.(synced := s.loop.rev, loop := Pushed)
    case LastRefresh(ok, rev) => Rearmed(if ok then Fetched(s, rev) else s)
  }

  ghost predicate IsRun(states: seq<State>, events: seq<Event>) {
    && |states| == |events| + 1 && states[0] == Initial(states[0].synced)
    && forall i :: 0 <= i < |events| ==> Enabled(states[i], events[i]) && states[i + 1] == Step(states[i], events[i])
  }

  // ----- No lost update -----

  /** Once the mirror is ready every call succeeds, and the devops tag never
      returns to an older revision. */
  predicate Benign(s: State, e: Event) {
    match e
    case Handle(ok, rev) => s.ready ==> ok && rev >= s.mirror
    case BecomeReady(rev) => rev > NONE
    case Refresh(ok, rev) => ok ==> rev >= s.mirror
    case Revision(ok) => s.ready ==> ok
    case Clone(ok) => s.ready ==> ok
    case Apply(ok) => ok
    case LastRefresh(ok, rev) => ok && rev >= s.mirror
    case _ => true
  }

  /** The loop waits and neither channel holds a value. */
  predicate Quiet(s: State) {
    (s.loop.Waiting? || s.loop.Sending?) && !s.notice && !s.soon
  }

  predicate Invariant(s: State) {
    && (!s.ready ==> s.head == NONE && s.mirror == NONE && !s.notice && (s.loop.Waiting? || s.loop.Sending? || s.loop.Syncing?))
    && (s.ready ==>
          && s.head <= s.mirror && s.mirror > NONE
          && (Quiet(s) ==> s.synced == s.mirror)
          && match s.loop {
               case Cloned(rev) => s.head <= rev <= s.mirror && (rev != s.mirror ==> s.notice)
               case Pushed => s.head <= s.synced <= s.mirror && (s.synced != s.mirror ==> s.notice)
               case Syncing => true
               case _ => s.head == s.mirror ==> s.soon || s.synced == s.mirror
             })
  }

  lemma FetchKeepsInvariant(s: State, rev: int)
    requires Invariant(s) && s.ready && rev >= s.mirror
    ensures Invariant(Fetched(s, rev)) && (s.loop.Pushed? ==> Invariant(Rearmed(Fetched(s, rev))))
  {
  }

  lemma BranchKeepsInvariant(s: State, e: Event)
    requires Invariant(s) && Enabled(s, e) && Benign(s, e)
    requires e.ReadNotice? || e.Revision? || e.ReadSoon? || e.Clone? || e.Apply?
    ensures Invariant(Step(s, e))
  {
  }

  lemma StepKeepsInvariant(s: State, e: Event)
    requires Invariant(s) && Enabled(s, e) && Benign(s, e)
    ensures Invariant(Step(s, e))
  {
    if e.ReadNotice? || e.Revision? || e.ReadSoon? || e.Clone? || e.Apply? {
      BranchKeepsInvariant(s, e);
    } else if s.ready && (e.Handle? || e.Refresh? || e.LastRefresh?) && e.ok {
      FetchKeepsInvariant(s, e.rev);
    }
  }

  lemma {:induction false} BenignRunKeepsInvariant(states: seq<State>, events: seq<Event>, i: nat)
    requires IsRun(states, events) && i < |states|
    requires forall j :: 0 <= j < |events| ==> Benign(states[j], events[j])
    ensures Invariant(states[i])
  {
    if i > 0 {
      BenignRunKeepsInvariant(states, events, i - 1);
      StepKeepsInvariant(states[i - 1], events[i - 1]);
    }
  }

  /** A step that gives the last pending update away: the loop is about to wait
      with both channels empty although the synced revision is not the mirror's.
      Its branches are the error and the unchanged head of the C branch, and a
      clone or an apply that fails. */
  predicate Loses(s: State, e: Event) {
    && s.ready && !s.notice && !s.soon && s.synced != s.mirror
    && match e
       case Revision(ok) => !ok || s.mirror == s.head
       case Clone(ok) => !ok
       case Apply(ok) => !ok
       case _ => false
  }

  /** Nothing is lost so far: an update is applied or on its way. */
  predicate Accounted(s: State) {
    s.ready ==>
      && (Quiet(s) ==> s.synced == s.mirror)
      && match s.loop {
           case Cloned(rev) => rev == s.mirror || s.notice
           case Pushed => s.synced == s.mirror || s.notice
           case _ => true
         }
  }

  lemma LosingStep(s: State, e: Event)
    requires Enabled(s, e)
    ensures Loses(s, e) ==> Step(s, e).ready && Quiet(Step(s, e)) && Step(s, e).synced != Step(s, e).mirror
    ensures Accounted(s) && !Loses(s, e) ==> Accounted(Step(s, e))
  {
  }

  lemma {:induction false} AccountedUntil(states: seq<State>, events: seq<Event>, i: nat)
    requires IsRun(states, events) && i < |states|
    requires forall j :: 0 <= j < i ==> !Loses(states[j], events[j])
    ensures Accounted(states[i])
  {
    if i > 0 {
      AccountedUntil(states, events, i - 1);
      LosingStep(states[i - 1], events[i - 1]);
    }
  }

  /** Exactly when updates are lost, over all runs, with any failures and any
      movement of the tag: no quiet state is behind if and only if no step loses. */
  lemma NothingLostIff(states: seq<State>, events: seq<Event>)
    requires IsRun(states, events)
    ensures (forall i :: 0 <= i < |states| && states[i].ready && Quiet(states[i]) ==> states[i].synced == states[i].mirror)
       <==> (forall j :: 0 <= j < |events| ==> !Loses(states[j], events[j]))
  {
    if j :| 0 <= j < |events| && Loses(states[j], events[j]) {
      LosingStep(states[j], events[j]);
      assert states[j + 1] == Step(states[j], events[j]);
    } else {
      forall i | 0 <= i < |states| ensures Accounted(states[i]) { AccountedUntil(states, events, i); }
    }
  }

  lemma BenignStepsLoseNothing(s: State, e: Event)
    requires Invariant(s) && Enabled(s, e) && Benign(s, e)
    ensures !Loses(s, e)
  {
  }

  /** In particular no update is lost in the coalescing channels: in every state of
      every run with successful calls and a tag that does not go back, once the
      loop waits with both channels empty, the synced revision is the mirror's. */
  lemma NoLostUpdate(states: seq<State>, events: seq<Event>, i: nat)
    requires IsRun(states, events) && i < |states|
    requires forall j :: 0 <= j < |events| ==> Benign(states[j], events[j])
    ensures Invariant(states[i])
    ensures states[i].ready && Quiet(states[i]) ==> states[i].synced == states[i].mirror
  {
    BenignRunKeepsInvariant(states, events, i);
    forall j | 0 <= j < |events| ensures !Loses(states[j], events[j]) {
      BenignRunKeepsInvariant(states, events, j);
      BenignStepsLoseNothing(states[j], events[j]);
    }
    NothingLostIff(states, events);
  }

  // ----- Convergence -----

  /** Steps that the loop takes by itself while nothing changes upstream. */
  predicate OwnStep(s: State, e: Event) {
    Enabled(s, e) &&
    match e
    case SendTick => true
    case ReadNotice => true
    case Revision(ok) => ok
    case ReadSoon => true
    case Clone(ok) => ok
    case Apply(ok) => ok
    case LastRefresh(ok, rev) => ok && rev == s.mirror
    case _ => false
  }

  /** How many steps of its own the loop can still take at most. */
  function Work(s: State): nat {
    (if s.notice then 2 else 0) + (if s.soon then 6 else 0) + (if s.head != s.mirror then 6 else 0) +
    match s.loop
    case Waiting => 0
    case Sending => 1
    case Noticed => 1
    case Syncing => 5
    case Cloned(_) => 4
    case Pushed => 3
  }

  lemma OwnStepsReduceWork(s: State, e: Event)
    requires OwnStep(s, e)
    ensures Work(Step(s, e)) < Work(s)
  {
  }

  /** The loop never spins: its own steps from a state are at most 19. */
  lemma {:induction false} OwnRunsAreShort(states: seq<State>, events: seq<Event>)
    requires |states| == |events| + 1
    requires forall i :: 0 <= i < |events| ==> OwnStep(states[i], events[i]) && states[i + 1] == Step(states[i], events[i])
    ensures |events| <= Work(states[0]) <= 19
  {
    if events != [] {
      OwnStepsReduceWork(states[0], events[0]);
      assert forall i :: 0 <= i < |events| - 1 ==> states[1..][i] == states[i + 1] && events[1..][i] == events[i + 1];
      OwnRunsAreShort(states[1..], events[1..]);
    }
  }

  /** When the loop can take no step of its own, it has caught up. */
  lemma StuckMeansSynced(s: State)
    requires Invariant(s) && s.ready && forall e :: !OwnStep(s, e)
    ensures s.loop.Waiting? && s.synced == s.mirror
  {
    assert !OwnStep(s, SendTick) && !OwnStep(s, ReadNotice) && !OwnStep(s, Revision(true)) && !OwnStep(s, ReadSoon);
    assert !OwnStep(s, Clone(true)) && !OwnStep(s, Apply(true)) && !OwnStep(s, LastRefresh(true, s.mirror));
  }

  lemma OwnStepIsBenign(s: State, e: Event)
    requires s.ready && OwnStep(s, e)
    ensures Benign(s, e) && Step(s, e).ready && Step(s, e).mirror == s.mirror
  {
  }

  lemma {:induction false} OwnRunKeepsInvariant(states: seq<State>, events: seq<Event>, i: nat)
    requires |states| == |events| + 1 && i < |states| && Invariant(states[0]) && states[0].ready
    requires forall j :: 0 <= j < |events| ==> OwnStep(states[j], events[j]) && states[j + 1] == Step(states[j], events[j])
    ensures Invariant(states[i]) && states[i].ready && states[i].mirror == states[0].mirror
  {
    if i > 0 {
      OwnRunKeepsInvariant(states, events, i - 1);
      OwnStepIsBenign(states[i - 1], events[i - 1]);
      StepKeepsInvariant(states[i - 1], events[i - 1]);
    }
  }

  /** Left to itself, the loop catches up: a run of own steps that cannot go on
      has at most 19 steps and ends waiting, with the mirror's revision synced. */
  lemma CatchesUp(states: seq<State>, events: seq<Event>)
    requires |states| == |events| + 1 && Invariant(states[0]) && states[0].ready
    requires forall i :: 0 <= i < |events| ==> OwnStep(states[i], events[i]) && states[i + 1] == Step(states[i], events[i])
    requires forall e :: !OwnStep(states[|events|], e)
    ensures |events| <= 19
    ensures states[|events|].loop.Waiting? && states[|events|].synced == states[0].mirror
  {
    OwnRunsAreShort(states, events);
    OwnRunKeepsInvariant(states, events, |events|);
    StuckMeansSynced(states[|events|]);
  }

  /** The event is a fetch that succeeds and finds the devops tag at rev. */
  predicate Finds(e: Event, rev: int) {
    match e
    case Handle(ok, r) => ok && r == rev
    case Refresh(ok, r) => ok && r == rev
    case LastRefresh(ok, r) => ok && r == rev
    case BecomeReady(r) => r == rev
    case _ => false
  }

  /** A successful fetch brings what it found into the mirror and leaves a notice. */
  lemma FetchArrives(s: State, e: Event, rev: int)
    requires Enabled(s, e) && Finds(e, rev)
    ensures Step(s, e).mirror == rev && Step(s, e).notice && (Invariant(s) ==> Step(s, e).ready)
  {
  }

  /** Whatever a fetch finds upstream is synced: after any successful fetch in a
      run with successful calls and a tag that does not go back, the loop, left to
      itself, has synced the revision that the fetch found, within 19 steps. */
  lemma FetchedTagIsSynced(states: seq<State>, events: seq<Event>, i: nat, rev: int, own: seq<State>, steps: seq<Event>)
    requires IsRun(states, events) && i < |events| && Finds(events[i], rev)
    requires forall j :: 0 <= j < |events| ==> Benign(states[j], events[j])
    requires |own| == |steps| + 1 && own[0] == states[i + 1]
    requires forall j :: 0 <= j < |steps| ==> OwnStep(own[j], steps[j]) && own[j + 1] == Step(own[j], steps[j])
    requires forall e :: !OwnStep(own[|steps|], e)
    ensures |steps| <= 19 && own[|steps|].loop.Waiting? && own[|steps|].synced == rev
  {
    FetchArrives(states[i], events[i], rev);
    BenignRunKeepsInvariant(states, events, i);
    BenignRunKeepsInvariant(states, events, i + 1);
    CatchesUp(own, steps);
  }

  /** The timer brings the tag by itself: once it fires, the loop hands over a tick,
      and the worker, if its fetch succeeds, finds the tag wherever it is. */
  lemma TimerFetches(s: State, rev: int) returns (own: seq<State>, steps: seq<Event>)
    requires s.ready && s.loop.Waiting? && s.timer.Armed? && s.queued == 0 && !s.handling
    ensures steps == [Fire, ReadTimer, SendTick, TakeTick, Handle(true, rev)] && |own| == 6 && own[0] == s
    ensures forall i :: 0 <= i < 5 ==> Enabled(own[i], steps[i]) && own[i + 1] == Step(own[i], steps[i])
    ensures own[5] == s.(timer := Off, mirror := rev, notice := true)
  {
    var a := s.(timer := Fired);
    var b := s.(timer := Off, loop := Sending);
    var c := s.(timer := Off, queued := 1);
    var d := s.(timer := Off, handling := true);
    own := [s, a, b, c, d, s.(timer := Off, mirror := rev, notice := true)];
    steps := [Fire, ReadTimer, SendTick, TakeTick, Handle(true, rev)];
    assert Step(s, Fire) == a && Step(a, ReadTimer) == b && Step(b, SendTick) == c && Step(c, TakeTick) == d;
  }

  // ----- Never permanently idle -----

  /** Something will make the loop run again: the timer, a queued or running
      refresh, a full channel, a branch in progress, or the mirror getting ready. */
  predicate Alive(s: State) {
    !s.ready || !s.timer.Off? || s.queued > 0 || s.handling || s.notice || s.soon || !s.loop.Waiting?
  }

  /** A step after which nothing makes the loop run again: with nothing queued or
      in a channel, a failed refresh of the interval worker stops a running timer
      while the loop waits, or a failed revision leaves the timer off. */
  predicate Stalls(s: State, e: Event) {
    && s.ready && s.queued == 0 && !s.notice && !s.soon
    && match e
       case Handle(ok, rev) => !ok && s.timer.Armed? && s.loop.Waiting?
       case Revision(ok) => !ok && s.timer.Off? && !s.handling
       case _ => false
  }

  lemma StallingStep(s: State, e: Event)
    requires Alive(s) && Enabled(s, e)
    ensures !Alive(Step(s, e)) <==> Stalls(s, e)
  {
  }

  lemma {:induction false} AliveUntil(states: seq<State>, events: seq<Event>, i: nat)
    requires IsRun(states, events) && i < |states|
    requires forall j :: 0 <= j < i ==> !Stalls(states[j], events[j])
    ensures Alive(states[i])
  {
    if i > 0 {
      AliveUntil(states, events, i - 1);
      StallingStep(states[i - 1], events[i - 1]);
    }
  }

  /** Exactly when the loop can go idle for good, over all runs: every state is
      alive if and only if no step stalls. */
  lemma NeverIdleIff(states: seq<State>, events: seq<Event>)
    requires IsRun(states, events)
    ensures (forall i :: 0 <= i < |states| ==> Alive(states[i])) <==>
            (forall j :: 0 <= j < |events| ==> !Stalls(states[j], events[j]))
  {
    if forall i :: 0 <= i < |states| ==> Alive(states[i]) {
      forall j | 0 <= j < |events| ensures !Stalls(states[j], events[j]) {
        StallingStep(states[j], events[j]);
        assert Alive(states[j + 1]);
      }
    } else if forall j :: 0 <= j < |events| ==> !Stalls(states[j], events[j]) {
      forall i | 0 <= i < |states| ensures Alive(states[i]) { AliveUntil(states, events, i); }
    }
  }

  /** Refresh and Revision succeed once the mirror is ready; clones, syncs and
      pushes may fail, and the tag may go anywhere. */
  predicate RefreshesSucceed(s: State, e: Event) {
    s.ready ==> (e.Handle? ==> e.ok) && (e.Revision? ==> e.ok)
  }

  lemma NeverIdle(states: seq<State>, events: seq<Event>, i: nat)
    requires IsRun(states, events) && i < |states|
    requires forall j :: 0 <= j < |events| ==> RefreshesSucceed(states[j], events[j])
    ensures Alive(states[i])
  {
    forall j | 0 <= j < |events| ensures !Stalls(states[j], events[j]) { assert RefreshesSucceed(states[j], events[j]); }
    AliveUntil(states, events, i);
  }

  // ----- Runs that lose an update or go idle -----

  lemma Extend(states: seq<State>, events: seq<Event>, e: Event) returns (states': seq<State>, events': seq<Event>)
    requires IsRun(states, events) && Enabled(states[|events|], e)
    ensures IsRun(states', events') && events' == events + [e] && states'[|events'|] == Step(states[|events|], e)
  {
    states', events' := states + [Step(states[|events|], e)], events + [e];
  }

  predicate Succeeds(e: Event) {
    (e.Handle? || e.Refresh? || e.Revision? || e.Clone? || e.Apply? || e.LastRefresh?) ==> e.ok
  }

  /** The mirror gets ready and the loop notices its first revision. */
  lemma FirstNotice(states: seq<State>, events: seq<Event>) returns (states': seq<State>, events': seq<Event>)
    requires IsRun(states, events) && forall e :: e in events ==> Succeeds(e)
    requires var s := states[|events|]; !s.ready && s.loop.Waiting? && s.head == NONE
    ensures IsRun(states', events') && forall e :: e in events' ==> Succeeds(e)
    ensures states'[|events'|] == states[|events|].(ready := true, mirror := 1, head := 1, notice := false, soon := true)
  {
    states', events' := Extend(states, events, BecomeReady(1));
    states', events' := Extend(states', events', ReadNotice);
    states', events' := Extend(states', events', Revision(true));
  }

  /** If the tag returns to the revision that the loop last noticed, while a
      sync has meanwhile applied the revision in between, that revision stays
      in the cluster: all calls succeed, the loop is quiet, and the synced
      revision is not the mirror's. */
  lemma ReturningTagIsLost() returns (states: seq<State>, events: seq<Event>)
    ensures IsRun(states, events) && forall e :: e in events ==> Succeeds(e)
    ensures var s := states[|events|]; s.ready && Quiet(s) && s.synced != s.mirror
  {
    states, events := FirstNotice([Initial(NONE)], []);
    states, events := SyncOfNext(states, events);
    states, events := Extend(states, events, LastRefresh(true, 1));
    states, events := Extend(states, events, ReadNotice);
    states, events := Extend(states, events, Revision(true));
  }

  /** The mirror moves on before a pending sync clones it. */
  lemma SyncOfNext(states: seq<State>, events: seq<Event>) returns (states': seq<State>, events': seq<Event>)
    requires IsRun(states, events) && forall e :: e in events ==> Succeeds(e)
    requires var s := states[|events|]; s.ready && s.loop.Waiting? && s.soon && s.synced != 2
    ensures IsRun(states', events') && forall e :: e in events' ==> Succeeds(e)
    ensures states'[|events'|] ==
            states[|events|].(mirror := 2, notice := true, soon := false, synced := 2, loop := Pushed, timer := Off)
  {
    states', events' := Extend(states, events, Refresh(true, 2));
    states', events' := Extend(states', events', ReadSoon);
    states', events' := Extend(states', events', Clone(true));
    states', events' := Extend(states', events', Apply(true));
  }

  /** A sync that fails is not tried again: from a quiet state whose head is the
      mirror's revision, a refresh that finds no new revision leads to such a
      state again, with the same synced revision. */
  lemma FailedSyncIsNotRetried(s: State)
    requires s.ready && s.loop.Waiting? && !s.soon && s.head == s.mirror
    ensures var next := Step(Step(Step(s, Refresh(true, s.mirror)), ReadNotice), Revision(true));
            next.synced == s.synced && next.ready && next.loop.Waiting? && !next.soon && !next.notice && next.head == next.mirror
  {
  }

  /** Runs that end in such a state with the synced revision behind, the clone or
      the apply of the only sync having failed. */
  lemma FailedSyncIsLost(inClone: bool) returns (states: seq<State>, events: seq<Event>)
    ensures IsRun(states, events)
    ensures var s := states[|events|]; s.ready && Quiet(s) && s.loop.Waiting? && s.head == s.mirror && s.synced != s.mirror
  {
    states, events := FirstNotice([Initial(NONE)], []);
    states, events := Extend(states, events, ReadSoon);
    states, events := Extend(states, events, Clone(!inClone));
    if !inClone { states, events := Extend(states, events, Apply(false)); }
  }

  /** The first sync is tried before the mirror is ready. */
  lemma ReadyAfterFailedClone() returns (states: seq<State>, events: seq<Event>)
    ensures IsRun(states, events)
    ensures states[|events|] == State(true, 1, true, false, NONE, NONE, Waiting, Armed, 0, false)
  {
    states, events := [Initial(NONE)], [];
    states, events := Extend(states, events, ReadSoon);
    states, events := Extend(states, events, Clone(false));
    states, events := Extend(states, events, BecomeReady(1));
  }

  /** A run whose only failure, once the mirror is ready, is that the revision
      cannot be read. */
  lemma FailedRevisionIsLost() returns (states: seq<State>, events: seq<Event>)
    ensures IsRun(states, events)
    ensures var s := states[|events|]; s.ready && Quiet(s) && s.synced != s.mirror
  {
    states, events := ReadyAfterFailedClone();
    states, events := Extend(states, events, ReadNotice);
    states, events := Extend(states, events, Revision(false));
  }

  /** The timer fires and its tick is queued while a sync is pending. */
  lemma TickQueued() returns (states: seq<State>, events: seq<Event>)
    ensures IsRun(states, events)
    ensures states[|events|] == State(true, 1, false, true, 1, 1, Waiting, Off, 1, false)
  {
    states, events := FirstNotice([Initial(1)], []);
    states, events := Extend(states, events, Fire);
    states, events := Extend(states, events, ReadTimer);
    states, events := Extend(states, events, SendTick);
  }

  /** A failed refresh of the interval worker stops a running timer for good:
      the loop has no way to run again by itself. */
  lemma FailedRefreshCanIdle() returns (states: seq<State>, events: seq<Event>)
    ensures IsRun(states, events) && !Alive(states[|events|])
  {
    states, events := TickQueued();
    states, events := Extend(states, events, ReadSoon);
    states, events := Extend(states, events, Clone(true));
    states, events := Extend(states, events, Apply(true));
    states, events := Extend(states, events, TakeTick);
    states, events := Extend(states, events, Handle(false, NONE));
  }

  /** So does a revision that cannot be read while the timer is off. */
  lemma FailedRevisionCanIdle() returns (states: seq<State>, events: seq<Event>)
    ensures IsRun(states, events) && !Alive(states[|events|])
  {
    states, events := ReadyAfterFailedClone();
    states, events := Extend(states, events, Fire);
    states, events := Extend(states, events, ReadTimer);
    states, events := Extend(states, events, SendTick);
    states, events := Extend(states, events, TakeTick);
    states, events := Extend(states, events, Handle(true, 1));
    states, events := Extend(states, events, ReadNotice);
    states, events := Extend(states, events, Revision(false));
  }
}
