/** The life cycle of the per-namespace sync loops and their stop channels.
    Models listenEnvs and WithStop of pkg/gitops/gitops.go, the disconnect branch
    of Loop in pkg/websocket/client.go, and the part of InitAgent and DeleteEnv in
    pkg/command/agent that touches the channels. An iteration of listenEnvs blocks
    between registering the stop channel and starting the loop, so it is two
    steps; a disconnect and a DeleteEnv are one step each. Steps interleave freely. */
module StopChannels {
  import opened Common

  /** The key under which the stop channel of the interval worker is kept. */
  const SYNC_STOP := "sync_stop_chan"

  /** An iteration of listenEnvs creates a stop channel, a repo and a goroutine
      that listens to both: all three carry the number of the iteration. */
  datatype World = World(
    names: seq<string>,            // the name each iteration serves
    launched: set<nat>,            // the iterations whose goroutine has been started
    stopChans: map<string, nat>,   // model.GitStopChanMap
    repos: map<string, nat>,       // opts.GitRepos
    closed: seq<nat>,              // the stop channels closed, once per close
    signalled: seq<nat>,           // the repos whose SyncChan was sent to, once per send
    running: bool,                 // model.GitRunning
    initialized: bool)             // model.Initialized

  const INITIAL := World([], {}, map[], map[], [], [], false, false)

  datatype Step =
    | Init                            // InitAgent returns, whether or not it succeeded
    | Register(name: string)          // an iteration of listenEnvs up to the point where it blocks
    | Launch(iteration: nat)          // and from there: register the repo, start the goroutine
    | Listening                       // WithStop sets GitRunning
    | Disconnect(order: seq<string>)  // the error branch of Loop, in some range order
    | DeleteEnv(namespace: string)

  /** A goroutine that runs and has been neither stopped nor signalled. */
  predicate Active(w: World, i: nat) {
    i in w.launched && i !in w.closed && i !in w.signalled
  }

  /** An iteration that is blocked. */
  predicate Pending(w: World, i: nat) {
    i < |w.names| && i !in w.launched
  }

  /** The iteration holds the entry of its name. */
  predicate Registered(w: World, i: nat) {
    i < |w.names| && w.names[i] in w.stopChans && w.stopChans[w.names[i]] == i
  }

  /** The interval worker is started at once and has no repo. */
  function RegisterOne(w: World, name: string): World {
    if name in w.stopChans then w
    else
      var i := |w.names|;
      w.(names := w.names + [name], stopChans := w.stopChans[name := i],
         launched := if name == SYNC_STOP then w.launched + {i} else w.launched)
  }

  function LaunchOne(w: World, i: nat): World
    requires i < |w.names|
  {
    w.(launched := w.launched + {i}, repos := w.repos[w.names[i] := i])
  }

  function CloseOne(w: World, name: string): World {
    if name !in w.stopChans then w
    else w.(closed := w.closed + [w.stopChans[name]], stopChans := w.stopChans - {name})
  }

  function CloseAll(w: World, order: seq<string>): World {
    if order == [] then w else CloseOne(CloseAll(w, order[..|order| - 1]), order[|order| - 1])
  }

  /** Signal the namespace's repo and unregister it, without closing its channel. */
  function Remove(w: World, namespace: string): World
    requires namespace in w.repos
  {
    w.(signalled := w.signalled + [w.repos[namespace]], repos := w.repos - {namespace}, stopChans := w.stopChans - {namespace})
  }

  /** A range visits every key once. DeleteEnv of a namespace without a repo
      dereferences nil and so has no next state. */
  ghost predicate Enabled(w: World, step: Step) {
    match step
    case Launch(i) => Pending(w, i)
    case Disconnect(order) => Distinct(order) && Elements(order) == w.stopChans.Keys
    case DeleteEnv(namespace) => namespace in w.repos
    case _ => true
  }

  function Next(w: World, step: Step): World
    requires step.DeleteEnv? ==> step.namespace in w.repos
    requires step.Launch? ==> step.iteration < |w.names|
  {
    match step
    case Init => w.(initialized := true)
    case Register(name) => RegisterOne(w, name)
    case Launch(i) => LaunchOne(w, i)
    case Listening => w.(running := true)
    case Disconnect(order) =>
      if w.running && w.initialized then CloseAll(w, order).(running := false, initialized := false) else w
    case DeleteEnv(namespace) => Remove(w, namespace)
  }

  /** The states passed by a run. */
  ghost predicate Run(states: seq<World>, steps: seq<Step>) {
    && |states| == |steps| + 1 && states[0] == INITIAL
    && forall i :: 0 <= i < |steps| ==> Enabled(states[i], steps[i]) && states[i + 1] == Next(states[i], steps[i])
  }

  /** Nothing was closed or signalled twice; every registered channel is open and
      its goroutine is active or about to be started; and every active goroutine
      holds the entry of its name, so it can be stopped and is the only one. */
  ghost predicate Safe(w: World) {
    && Distinct(w.closed) && Distinct(w.signalled)
    && (forall k :: k in w.stopChans ==>
          w.stopChans[k] !in w.closed && (Active(w, w.stopChans[k]) || Pending(w, w.stopChans[k])))
    && (forall i: nat :: Active(w, i) ==> Registered(w, i))
  }

  /** Hence no name has two active goroutines. */
  lemma AtMostOneActive(w: World, i: nat, j: nat)
    requires Safe(w) && Active(w, i) && Active(w, j) && w.names[i] == w.names[j]
    ensures i == j
  {
  }

  /** The step leaves an active goroutine without the entry of its name: a blocked
      iteration starts its loop after the namespace was deleted, or a namespace is
      deleted whose repo entry belongs to another iteration. */
  predicate Orphans(w: World, step: Step) {
    match step
    case Launch(i) => Pending(w, i) && i !in w.closed && !Registered(w, i)
    case DeleteEnv(k) => k in w.repos && k in w.stopChans && Active(w, w.stopChans[k]) && w.repos[k] != w.stopChans[k]
    case _ => false
  }

  /** No channel was closed twice, and every registered channel is that of an
      iteration of its name and open. */
  ghost predicate OpenOnce(w: World) {
    && Distinct(w.closed) && (forall i :: i in w.closed ==> i < |w.names|)
    && (forall k :: k in w.stopChans ==>
          w.stopChans[k] < |w.names| && w.names[w.stopChans[k]] == k && w.stopChans[k] !in w.closed)
  }

  /** No repo was signalled twice, and every registered repo is that of a launched
      iteration of its name and not signalled. */
  ghost predicate SignalledOnce(w: World) {
    && Distinct(w.signalled) && (forall i :: i in w.signalled ==> i in w.launched)
    && (forall i :: i in w.launched ==> i < |w.names|)
    && (forall k :: k in w.repos ==>
          k != SYNC_STOP && w.repos[k] in w.launched && w.names[w.repos[k]] == k && w.repos[k] !in w.signalled)
  }

  /** The interval worker is never blocked and never loses its entry. */
  ghost predicate WorkerHeld(w: World) {
    forall i: nat :: i < |w.names| && w.names[i] == SYNC_STOP ==> i in w.launched && (i !in w.closed ==> Registered(w, i))
  }

  /** What holds in every state of every run. */
  ghost predicate Base(w: World) {
    OpenOnce(w) && SignalledOnce(w) && WorkerHeld(w)
  }

  /** What holds besides until a step orphans a goroutine. */
  ghost predicate Consistent(w: World) {
    && Base(w)
    && (forall k :: k in w.stopChans ==> w.stopChans[k] !in w.signalled)
    && (forall i: nat :: Active(w, i) ==> Registered(w, i))
  }

  lemma ConsistentIsSafe(w: World)
    requires Consistent(w)
    ensures Safe(w)
  {
  }

  lemma StepKeepsBase(w: World, step: Step)
    requires Base(w) && Enabled(w, step)
    ensures Base(Next(w, step))
  {
    match step
    case Init => FlagsKeepBase(w, w.running, true);
    case Register(name) => RegisterKeepsBase(w, name);
    case Launch(i) => LaunchKeepsBase(w, i);
    case Listening => FlagsKeepBase(w, true, w.initialized);
    case Disconnect(order) =>
      CloseAllKeepsBase(w, order);
      FlagsKeepBase(CloseAll(w, order), false, false);
    case DeleteEnv(namespace) => RemoveKeepsBase(w, namespace);
  }

  /** In every state of every run, in any interleaving and without any condition:
      every registered channel is open, and nothing is closed or signalled twice. */
  lemma {:induction false} EveryRunClosesOnce(states: seq<World>, steps: seq<Step>, n: nat)
    requires Run(states, steps) && n <= |steps|
    ensures Base(states[n])
  {
    if n > 0 {
      EveryRunClosesOnce(states, steps, n - 1);
      StepKeepsBase(states[n - 1], steps[n - 1]);
    }
  }

  lemma FlagsKeepBase(w: World, running: bool, initialized: bool)
    requires Base(w)
    ensures Base(w.(running := running, initialized := initialized))
  {
  }

  lemma RegisterKeepsBase(w: World, name: string)
    requires Base(w)
    ensures Base(RegisterOne(w, name))
  {
  }

  lemma LaunchKeepsBase(w: World, i: nat)
    requires Base(w) && Pending(w, i)
    ensures Base(LaunchOne(w, i))
  {
    assert w.names[i] != SYNC_STOP;
  }

  lemma CloseKeepsBase(w: World, name: string)
    requires Base(w)
    ensures Base(CloseOne(w, name))
  {
  }

  lemma {:induction false} CloseAllKeepsBase(w: World, order: seq<string>)
    requires Base(w)
    ensures Base(CloseAll(w, order)) && w.closed <= CloseAll(w, order).closed
  {
    if order != [] {
      var front := CloseAll(w, order[..|order| - 1]);
      CloseAllKeepsBase(w, order[..|order| - 1]);
      CloseKeepsBase(front, order[|order| - 1]);
      assert CloseAll(w, order) == CloseOne(front, order[|order| - 1]);
    }
  }

  lemma RemoveKeepsBase(w: World, k: string)
    requires Base(w) && k in w.repos
    ensures Base(Remove(w, k))
  {
  }

  // ----- One loop for each name -----

  /** No name has two active goroutines. */
  ghost predicate OneLoop(w: World) {
    forall i: nat, j: nat :: Active(w, i) && Active(w, j) && i < |w.names| && j < |w.names| && w.names[i] == w.names[j] ==> i == j
  }

  /** A blocked iteration that was not stopped starts its loop beside another one
      of the same name. */
  predicate Doubles(w: World, step: Step) {
    step.Launch? && Pending(w, step.iteration) && step.iteration !in w.closed &&
    exists j :: 0 <= j < |w.names| && Active(w, j) && w.names[j] == w.names[step.iteration]
  }

  lemma StepIffDoubles(w: World, step: Step)
    requires Base(w) && OneLoop(w) && Enabled(w, step)
    ensures OneLoop(Next(w, step)) <==> !Doubles(w, step)
  {
    var w' := Next(w, step);
    match step
    case Register(name) => assert forall i: nat :: Active(w', i) ==> i == |w.names| || Active(w, i);
    case Launch(i) => LaunchIffDoubles(w, i);
    case Disconnect(order) =>
      CloseAllCloses(w, order);
      CloseAllKeepsBase(w, order);
      assert forall i: nat :: Active(w', i) ==> Active(w, i);
    case _ => assert forall i: nat :: Active(w', i) ==> Active(w, i);
  }

  lemma LaunchIffDoubles(w: World, i: nat)
    requires Base(w) && OneLoop(w) && Pending(w, i)
    ensures OneLoop(LaunchOne(w, i)) <==> !Doubles(w, Launch(i))
  {
    var w' := LaunchOne(w, i);
    assert forall j: nat :: Active(w', j) <==> (j == i && i !in w.closed) || Active(w, j);
    if Doubles(w, Launch(i)) {
      var j :| 0 <= j < |w.names| && Active(w, j) && w.names[j] == w.names[i];
      assert Active(w', i) && Active(w', j) && i != j;
    }
  }

  lemma {:induction false} OneLoopUntil(states: seq<World>, steps: seq<Step>, n: nat)
    requires Run(states, steps) && n <= |steps|
    requires forall i :: 0 <= i < n ==> !Doubles(states[i], steps[i])
    ensures OneLoop(states[n])
  {
    if n > 0 {
      OneLoopUntil(states, steps, n - 1);
      EveryRunClosesOnce(states, steps, n - 1);
      StepIffDoubles(states[n - 1], steps[n - 1]);
    }
  }

  lemma {:induction false} FirstDouble(states: seq<World>, steps: seq<Step>, n: nat) returns (m: nat)
    requires Run(states, steps) && n < |steps| && Doubles(states[n], steps[n])
    ensures m <= |steps| && !OneLoop(states[m])
  {
    if i :| 0 <= i < n && Doubles(states[i], steps[i]) {
      m := FirstDouble(states, steps, i);
    } else {
      OneLoopUntil(states, steps, n);
      EveryRunClosesOnce(states, steps, n);
      StepIffDoubles(states[n], steps[n]);
      m := n + 1;
    }
  }

  /** Exactly which runs never have two active goroutines of one name. */
  lemma EveryRunHasOneLoopIff(states: seq<World>, steps: seq<Step>)
    requires Run(states, steps)
    ensures (forall i :: 0 <= i < |states| ==> OneLoop(states[i])) <==>
            (forall i :: 0 <= i < |steps| ==> !Doubles(states[i], steps[i]))
  {
    if n :| 0 <= n < |steps| && Doubles(states[n], steps[n]) {
      var m := FirstDouble(states, steps, n);
    } else {
      forall i | 0 <= i < |states| ensures OneLoop(states[i]) { OneLoopUntil(states, steps, i); }
    }
  }

  // ----- Every active loop can be stopped -----

  /** A step that orphans nothing keeps the state consistent; one that does makes
      it unsafe. */
  lemma StepIffOrphans(w: World, step: Step)
    requires Consistent(w) && Enabled(w, step)
    ensures if Orphans(w, step) then !Safe(Next(w, step)) else Consistent(Next(w, step))
  {
    match step
    case Init => FlagsDoNotMatter(w, w.running, true);
    case Register(name) => RegisterKeepsConsistent(w, name);
    case Launch(i) => LaunchIffOrphans(w, i);
    case Listening => FlagsDoNotMatter(w, true, w.initialized);
    case Disconnect(order) =>
      CloseAllKeepsConsistent(w, order);
      FlagsDoNotMatter(CloseAll(w, order), false, false);
    case DeleteEnv(namespace) => RemoveIffOrphans(w, namespace);
  }

  lemma {:induction false} ConsistentUntil(states: seq<World>, steps: seq<Step>, n: nat)
    requires Run(states, steps) && n <= |steps|
    requires forall i :: 0 <= i < n ==> !Orphans(states[i], steps[i])
    ensures Consistent(states[n])
  {
    if n > 0 {
      ConsistentUntil(states, steps, n - 1);
      StepIffOrphans(states[n - 1], steps[n - 1]);
    }
  }

  lemma {:induction false} FirstOrphan(states: seq<World>, steps: seq<Step>, n: nat) returns (m: nat)
    requires Run(states, steps) && n < |steps| && Orphans(states[n], steps[n])
    ensures m <= |steps| && !Safe(states[m])
  {
    if i :| 0 <= i < n && Orphans(states[i], steps[i]) {
      m := FirstOrphan(states, steps, i);
    } else {
      ConsistentUntil(states, steps, n);
      StepIffOrphans(states[n], steps[n]);
      m := n + 1;
    }
  }

  /** Exactly which runs are safe, over any interleaving of initialisations,
      listener iterations and their blocking, disconnects and removals. */
  lemma EveryRunIsSafeIff(states: seq<World>, steps: seq<Step>)
    requires Run(states, steps)
    ensures (forall i :: 0 <= i < |states| ==> Safe(states[i])) <==>
            (forall i :: 0 <= i < |steps| ==> !Orphans(states[i], steps[i]))
  {
    if n :| 0 <= n < |steps| && Orphans(states[n], steps[n]) {
      var m := FirstOrphan(states, steps, n);
    } else {
      forall i | 0 <= i < |states| ensures Safe(states[i]) {
        ConsistentUntil(states, steps, i);
        ConsistentIsSafe(states[i]);
      }
    }
  }

  lemma FlagsDoNotMatter(w: World, running: bool, initialized: bool)
    requires Consistent(w)
    ensures Consistent(w.(running := running, initialized := initialized))
  {
    var w' := w.(running := running, initialized := initialized);
    FlagsKeepBase(w, running, initialized);
    assert forall i: nat :: (Active(w', i) <==> Active(w, i)) && (Registered(w', i) <==> Registered(w, i));
  }

  lemma RegisterKeepsConsistent(w: World, name: string)
    requires Consistent(w)
    ensures Consistent(RegisterOne(w, name))
  {
    var w', n := RegisterOne(w, name), |w.names|;
    RegisterKeepsBase(w, name);
    if name !in w.stopChans {
      assert forall i: nat :: Active(w', i) ==> (i == n && name == SYNC_STOP) || Active(w, i);
      assert forall i: nat :: Registered(w, i) ==> Registered(w', i);
    }
  }

  lemma LaunchIffOrphans(w: World, i: nat)
    requires Consistent(w) && Pending(w, i)
    ensures if Orphans(w, Launch(i)) then !Safe(LaunchOne(w, i)) else Consistent(LaunchOne(w, i))
  {
    var w' := LaunchOne(w, i);
    LaunchKeepsBase(w, i);
    assert forall j: nat :: Registered(w', j) <==> Registered(w, j);
    assert forall j: nat :: Active(w', j) <==> (j == i && i !in w.closed) || Active(w, j);
  }

  lemma CloseKeepsConsistent(w: World, name: string)
    requires Consistent(w)
    ensures Consistent(CloseOne(w, name))
  {
    CloseKeepsBase(w, name);
    if name in w.stopChans {
      var w' := CloseOne(w, name);
      assert forall i: nat :: Active(w', i) <==> i != w.stopChans[name] && Active(w, i);
      assert forall i: nat :: Registered(w, i) && i != w.stopChans[name] ==> Registered(w', i);
    }
  }

  lemma {:induction false} CloseAllKeepsConsistent(w: World, order: seq<string>)
    requires Consistent(w)
    ensures Consistent(CloseAll(w, order))
  {
    if order != [] {
      var front := CloseAll(w, order[..|order| - 1]);
      CloseAllKeepsConsistent(w, order[..|order| - 1]);
      CloseKeepsConsistent(front, order[|order| - 1]);
      assert CloseAll(w, order) == CloseOne(front, order[|order| - 1]);
    }
  }

  /** A disconnect closes what is registered, whatever the range order. */
  lemma {:induction false} CloseAllCloses(w: World, order: seq<string>)
    ensures CloseAll(w, order) == w.(closed := CloseAll(w, order).closed, stopChans := w.stopChans - Elements(order))
  {
    if order == [] {
      assert w.stopChans - Elements(order) == w.stopChans;
    } else {
      var k := |order| - 1;
      CloseAllCloses(w, order[..k]);
      ElementsOfPrefix(order, k);
      assert order[..k + 1] == order;
      assert w.stopChans - Elements(order[..k]) - {order[k]} == w.stopChans - Elements(order);
    }
  }

  lemma RemoveIffOrphans(w: World, k: string)
    requires Consistent(w) && k in w.repos
    ensures if Orphans(w, DeleteEnv(k)) then !Safe(Remove(w, k)) else Consistent(Remove(w, k))
  {
    var w', r := Remove(w, k), w.repos[k];
    RemoveKeepsBase(w, k);
    assert forall i: nat :: Active(w', i) <==> i != r && Active(w, i);
    assert forall i: nat :: Registered(w', i) <==> Registered(w, i) && w.names[i] != k;
    if Orphans(w, DeleteEnv(k)) {
      assert Active(w', w.stopChans[k]) && !Registered(w', w.stopChans[k]);
    }
  }

  /** A blocked iteration that is overtaken: the environment is listened to again
      after a disconnect, removed while that iteration is blocked, and then its
      loop starts although nothing can stop it; listening a third time starts a
      second loop for the same environment. */
  lemma OvertakenIteration(name: string) returns (states: seq<World>, steps: seq<Step>)
    requires name != SYNC_STOP
    ensures Run(states, steps) && |steps| > 4
    ensures Orphans(states[|steps| - 5], steps[|steps| - 5]) && OneLoop(states[|steps| - 4])
    ensures Doubles(states[|steps| - 1], steps[|steps| - 1]) && !OneLoop(states[|steps|])
  {
    states, steps := OrphanedLoop(name);
    states, steps := Extend(states, steps, Listening);
    states, steps := Extend(states, steps, Register(SYNC_STOP));
    states, steps := Extend(states, steps, Register(name));
    var before := states[|steps|];
    assert Active(before, 3) && before.names[3] == before.names[4] == name;
    states, steps := Extend(states, steps, Launch(4));
    assert Active(states[|steps|], 3) && Active(states[|steps|], 4);
  }

  /** The first part of that run, up to the orphan, which is still the only loop. */
  lemma OrphanedLoop(name: string) returns (states: seq<World>, steps: seq<Step>)
    requires name != SYNC_STOP
    ensures Run(states, steps) && |steps| > 0
    ensures Orphans(states[|steps| - 1], steps[|steps| - 1]) && OneLoop(states[|steps|])
    ensures states[|steps|] == World([SYNC_STOP, name, SYNC_STOP, name], {0, 1, 2, 3}, map[SYNC_STOP := 2], map[name := 3],
                                     [0, 1], [1], false, true)
  {
    states, steps := ListenedTwice(name);
    states, steps := Extend(states, steps, DeleteEnv(name));
    states, steps := Extend(states, steps, Launch(3));
    OnlyLoops(states[|steps|], name);
  }

  lemma OnlyLoops(w: World, name: string)
    requires name != SYNC_STOP && w.names == [SYNC_STOP, name, SYNC_STOP, name]
    requires 0 in w.closed && 1 in w.closed && forall i :: i in w.launched ==> i < 4
    ensures OneLoop(w)
  {
  }

  /** Listened to, disconnected, and blocked while listening again. */
  lemma ListenedTwice(name: string) returns (states: seq<World>, steps: seq<Step>)
    requires name != SYNC_STOP
    ensures Run(states, steps)
    ensures states[|steps|] == World([SYNC_STOP, name, SYNC_STOP, name], {0, 1, 2}, map[SYNC_STOP := 2, name := 3], map[name := 1],
                                     [0, 1], [], false, true)
  {
    states, steps := Listened(name);
    var before := states[|steps|];
    CloseBoth(before, SYNC_STOP, name);
    states, steps := Extend(states, steps, Disconnect([SYNC_STOP, name]));
    states, steps := Extend(states, steps, Init);
    states, steps := Extend(states, steps, Register(SYNC_STOP));
    states, steps := Extend(states, steps, Register(name));
  }

  lemma Listened(name: string) returns (states: seq<World>, steps: seq<Step>)
    requires name != SYNC_STOP
    ensures Run(states, steps)
    ensures states[|steps|] == World([SYNC_STOP, name], {0, 1}, map[SYNC_STOP := 0, name := 1], map[name := 1], [], [], true, true)
  {
    states, steps := [INITIAL], [];
    states, steps := Extend(states, steps, Init);
    states, steps := Extend(states, steps, Register(SYNC_STOP));
    states, steps := Extend(states, steps, Register(name));
    states, steps := Extend(states, steps, Launch(1));
    states, steps := Extend(states, steps, Listening);
  }

  lemma CloseBoth(w: World, a: string, b: string)
    requires a != b
    ensures CloseAll(w, [a, b]) == CloseOne(CloseOne(w, a), b)
    ensures Elements([a, b]) == {a, b} && Distinct([a, b])
  {
    assert [a, b][..1] == [a] && [a][..0] == [];
    assert CloseAll(w, [a][..0]) == w;
    assert CloseAll(w, [a]) == CloseOne(w, a);
  }

  lemma Extend(states: seq<World>, steps: seq<Step>, step: Step) returns (states': seq<World>, steps': seq<Step>)
    requires Run(states, steps) && Enabled(states[|steps|], step)
    ensures Run(states', steps') && steps' == steps + [step]
    ensures states' == states + [Next(states[|steps|], step)]
  {
    states', steps' := states + [Next(states[|steps|], step)], steps + [step];
  }

  // ----- Listening without interruption -----

  /** Nothing is blocked, and repos and channels go together. */
  ghost predicate Settled(w: World) {
    && Consistent(w)
    && forall k :: k in w.stopChans ==>
         w.stopChans[k] in w.launched && (k != SYNC_STOP ==> k in w.repos && w.repos[k] == w.stopChans[k])
  }

  /** One whole iteration. */
  function StartOne(w: World, name: string): World {
    if name in w.stopChans || name == SYNC_STOP then RegisterOne(w, name)
    else LaunchOne(RegisterOne(w, name), |w.names|)
  }

  lemma StartKeepsSettled(w: World, name: string)
    requires Settled(w)
    ensures Settled(StartOne(w, name))
  {
    RegisterKeepsConsistent(w, name);
    if name !in w.stopChans && name != SYNC_STOP {
      assert Pending(RegisterOne(w, name), |w.names|) && Registered(RegisterOne(w, name), |w.names|);
      LaunchIffOrphans(RegisterOne(w, name), |w.names|);
    }
  }

  function StartAll(w: World, names: seq<string>): World {
    if names == [] then w else StartOne(StartAll(w, names[..|names| - 1]), names[|names| - 1])
  }

  lemma {:induction false} StartAllKeepsSettled(w: World, names: seq<string>)
    requires Settled(w)
    ensures Settled(StartAll(w, names))
  {
    if names != [] {
      var front := StartAll(w, names[..|names| - 1]);
      StartAllKeepsSettled(w, names[..|names| - 1]);
      StartKeepsSettled(front, names[|names| - 1]);
      assert StartAll(w, names) == StartOne(front, names[|names| - 1]);
    }
  }

  lemma SettledFlags(w: World, running: bool, initialized: bool)
    requires Settled(w)
    ensures Settled(w.(running := running, initialized := initialized)) && Safe(w.(running := running, initialized := initialized))
  {
    FlagsDoNotMatter(w, running, initialized);
    ConsistentIsSafe(w.(running := running, initialized := initialized));
  }

  /** What is registered has grown by exactly the names, one iteration for each new one. */
  ghost predicate Grown(w: World, w': World, names: set<string>) {
    && w'.stopChans.Keys == w.stopChans.Keys + names
    && w.names <= w'.names && w.launched <= w'.launched && w'.closed == w.closed && w'.signalled == w.signalled
    && |w'.names| - |w.names| == |w'.stopChans| - |w.stopChans| && w'.initialized == w.initialized
  }

  lemma NewKey(m: map<string, nat>, name: string, i: nat)
    requires name !in m
    ensures m[name := i].Keys == m.Keys + {name} && |m[name := i]| == |m| + 1
  {
    assert m[name := i].Keys == m.Keys + {name};
  }

  lemma GrowOne(w: World, front: World, names: set<string>, name: string)
    requires Grown(w, front, names)
    ensures Grown(w, StartOne(front, name), names + {name})
  {
    var w' := StartOne(front, name);
    if name !in front.stopChans {
      NewKey(front.stopChans, name, |front.names|);
      PrefixMore(w.names, front.names, name);
      assert |w'.stopChans| == |front.stopChans| + 1 && |w'.names| == |front.names| + 1;
    }
    KeysMore(w.stopChans.Keys, names, name, front.stopChans.Keys);
  }

  lemma PrefixMore(a: seq<string>, b: seq<string>, x: string)
    requires a <= b
    ensures a <= b + [x]
  {
  }

  lemma KeysMore(a: set<string>, b: set<string>, x: string, front: set<string>)
    requires front == a + b
    ensures a + (b + {x}) == front + {x} && (x in front ==> front + {x} == front)
  {
  }

  lemma {:induction false} StartAllStarts(w: World, names: seq<string>)
    ensures Grown(w, StartAll(w, names), Elements(names))
  {
    if names != [] {
      var k := |names| - 1;
      StartAllStarts(w, names[..k]);
      ElementsOfPrefix(names, k);
      assert names[..k + 1] == names;
      GrowOne(w, StartAll(w, names[..k]), Elements(names[..k]), names[k]);
    }
  }

  lemma ActiveStays(w: World, w': World, names: set<string>)
    requires Grown(w, w', names)
    ensures forall i: nat :: Active(w, i) ==> Active(w', i)
    ensures forall i: nat :: i < |w.names| ==> w'.names[i] == w.names[i]
  {
  }

  lemma ListeningIsSafe(w: World, names: seq<string>, w': World)
    requires Settled(w) && w' == StartAll(w, names)
    ensures Settled(w'.(running := true)) && Safe(w'.(running := true))
    ensures Grown(w, w'.(running := true), Elements(names))
  {
    StartAllKeepsSettled(w, names);
    SettledFlags(w', true, w'.initialized);
    StartAllStarts(w, names);
  }

  lemma {:induction false} CloseAllKeepsSettled(w: World, order: seq<string>)
    requires Settled(w)
    ensures Settled(CloseAll(w, order))
  {
    CloseAllKeepsConsistent(w, order);
    CloseAllCloses(w, order);
  }

  lemma RemoveKeepsSettled(w: World, k: string)
    requires Settled(w) && k in w.repos
    ensures Settled(Remove(w, k)) && Safe(Remove(w, k))
  {
    RemoveIffOrphans(w, k);
    ConsistentIsSafe(Remove(w, k));
    forall j | j in w.stopChans && j != k && j != SYNC_STOP ensures w.repos[j] == w.stopChans[j] {}
  }

  /** The shared maps and flags that the goroutines of the agent update, with the
      methods run one after the other. */
  class Agent {
    var names: seq<string>
    var launched: set<nat>
    var stopChans: map<string, nat>
    var repos: map<string, nat>
    var closed: seq<nat>
    var signalled: seq<nat>
    var running: bool
    var initialized: bool

    ghost function State(): World
      reads this
    {
      World(names, launched, stopChans, repos, closed, signalled, running, initialized)
    }

    constructor ()
      ensures State() == INITIAL
    {
      names, launched, stopChans, repos, closed, signalled, running, initialized := [], {}, map[], map[], [], [], false, false;
    }

    /** listenEnvs starts the interval worker and the environments not yet registered. */
    method ListenEnvs(envs: seq<string>)
      modifies this
      ensures State() == StartAll(old(State()), [SYNC_STOP] + envs)
    {
      var all := [SYNC_STOP] + envs;
      for i := 0 to |all|
        invariant State() == StartAll(old(State()), all[..i])
      {
        assert all[..i + 1][..i] == all[..i];
        StartUnlessRegistered(all[i]);
      }
      assert all[..|all|] == all;
    }

    method StartUnlessRegistered(name: string)
      modifies this
      ensures State() == StartOne(old(State()), name)
    {
      if name !in stopChans {
        stopChans := stopChans[name := |names|];
        if name != SYNC_STOP { repos := repos[name := |names|]; }
        launched := launched + {|names|};
        names := names + [name];
      }
    }

    /** WithStop: every environment of the list and the interval worker then have
        exactly one active goroutine each (Safe); what was active goes on
        (ActiveStays), and only the unregistered names are started. */
    method WithStop(envs: seq<string>)
      requires Settled(State())
      modifies this
      ensures Settled(State()) && Safe(State())
      ensures Grown(old(State()), State(), Elements([SYNC_STOP] + envs)) && running
    {
      ghost var before, all := State(), [SYNC_STOP] + envs;
      ListenEnvs(envs);
      ghost var mid := State();
      running := true;
      ListeningIsSafe(before, all, mid);
    }

    /** The error branch of Loop: no channel is closed twice, which would panic,
        and afterwards nothing is registered or active. */
    method Disconnected()
      requires Consistent(State())
      modifies this
      ensures Consistent(State()) && Safe(State())
      ensures old(Settled(State())) ==> Settled(State())
      ensures old(running && initialized) ==>
                stopChans == map[] && !running && !initialized && forall i: nat :: !Active(State(), i)
      ensures !old(running && initialized) ==> State() == old(State())
      ensures names == old(names) && launched == old(launched) && repos == old(repos) && signalled == old(signalled)
    {
      if running && initialized {
        var order := AnyOrder(stopChans.Keys);
        CloseChannels(order);
        running, initialized := false, false;
        CloseAllCloses(old(State()), order);
        CloseAllKeepsConsistent(old(State()), order);
        FlagsDoNotMatter(CloseAll(old(State()), order), false, false);
        if old(Settled(State())) { CloseAllKeepsSettled(old(State()), order); }
      }
      ConsistentIsSafe(State());
    }

    method CloseChannels(order: seq<string>)
      requires Distinct(order) && Elements(order) == stopChans.Keys
      modifies this
      ensures State() == CloseAll(old(State()), order)
    {
      for i := 0 to |order|
        invariant State() == CloseAll(old(State()), order[..i])
      {
        assert order[..i + 1][..i] == order[..i];
        CloseAllCloses(old(State()), order[..i]);
        ElementsOfPrefix(order, i);
        assert order[i] in Elements(order);
        closed := closed + [stopChans[order[i]]];
        stopChans := stopChans - {order[i]};
      }
      assert order[..|order|] == order;
    }

    /** The channel part of DeleteEnv; it fails where the source dereferences the
        missing repo. With nothing blocked, exactly the goroutine of the namespace
        stops. */
    method DeleteEnv(namespace: string) returns (ok: bool)
      requires Settled(State())
      modifies this
      ensures Settled(State()) && Safe(State()) && ok == (namespace in old(repos))
      ensures State() == if ok then Remove(old(State()), namespace) else old(State())
      ensures ok ==> forall i: nat :: Active(State(), i) <==> Active(old(State()), i) && names[i] != namespace
    {
      ok := namespace in repos;
      ghost var before := State();
      if ok {
        signalled := signalled + [repos[namespace]];
        repos := repos - {namespace};
        stopChans := stopChans - {namespace};
        RemoveKeepsSettled(before, namespace);
      } else {
        ConsistentIsSafe(before);
      }
    }
  }
}
