/**
 The daemon launcher's lock protocol: any number of launchers, each a process that takes atomic steps on two shared
 files (the spawn lock, created exclusively, and the lockfile, replaced by rename), interleaved in any way.
 */
module Launcher {
  import opened Prelude

  // Lockfiles and the reuse policy.

  datatype Fingerprint = Fingerprint(modifiedAtNanos: nat, lenBytes: nat)

  datatype LaunchSpec = LaunchSpec(serverBin: string, fingerprint: Option<Fingerprint>)

  datatype Lockfile = Lockfile(pid: nat, url: string, spec: LaunchSpec)

  datatype Decision = Reuse | RestartRequired | Ignore

  /** `LockfileReusePolicy::decision`, on what a lockfile says of the launcher that wrote it. */
  function Decide(mine: LaunchSpec, written: LaunchSpec): Decision {
    if written.serverBin != mine.serverBin then Ignore
    else if mine.fingerprint.None? || mine.fingerprint == written.fingerprint then Reuse
    else RestartRequired
  }

  // Launchers.

  /** The four places that ask for the url of a healthy lockfile. */
  datatype Caller = FirstCheck | FirstWait | UnderLock | SecondWait

  datatype Pc =
    | Reading(caller: Caller)
    | Judging(caller: Caller, snapshot: Lockfile)
    | Discarding(caller: Caller)
    | Clearing(caller: Caller)
    | ClearingLock(caller: Caller)
    | StatLock(second: bool)
    | RemovingStale(second: bool)
    | Acquiring
    | Spawning
    | AwaitingHealth(pid: nat, url: string)
    | Renaming(lockfile: Lockfile)
    | Dropping(result: Option<string>)
    | Returned(url: string)
    | Failed

  datatype Process = Process(spec: LaunchSpec, pc: Pc)

  datatype SpawnLock = SpawnLock(creator: nat, stale: bool)

  /** The two files, the launchers, and the daemons spawned so far: a daemon's pid is its index. */
  datatype World = World(
    spawnLock: Option<SpawnLock>,
    lockfile: Option<Lockfile>,
    procs: seq<Process>,
    daemons: seq<string>,
    alive: set<nat>,
    ready: set<string>
  )

  /** Between acquiring the spawn lock and dropping it. */
  predicate InCriticalSection(pc: Pc) {
    match pc
    case Reading(caller) => caller.UnderLock?
    case Judging(caller, _) => caller.UnderLock?
    case Discarding(caller) => caller.UnderLock?
    case Clearing(caller) => caller.UnderLock?
    case ClearingLock(caller) => caller.UnderLock?
    case Spawning | AwaitingHealth(_, _) | Renaming(_) | Dropping(_) => true
    case _ => false
  }

  /** A step of one launcher, or of its environment. */
  datatype Action =
    | Go(id: nat)
    | GiveUp(id: nat)
    | Spawn(id: nat, url: string)
    | IoError(id: nat)
    | BecomeReady(pid: nat)
    | LoseHealth(pid: nat)
    | Crash(pid: nat)
    | AgeLock
    | StopDaemon

  function Moved(w: World, i: nat, pc: Pc): World
    requires i < |w.procs|
  {
    w.(procs := w.procs[i := w.procs[i].(pc := pc)])
  }

  /** Where a launcher goes when `healthy_lockfile_url` finds nothing, and when it finds a url. */
  function AfterNone(caller: Caller): Pc {
    match caller
    case FirstCheck => StatLock(false)
    case FirstWait => Reading(FirstWait)
    case UnderLock => Spawning
    case SecondWait => Reading(SecondWait)
  }

  /** Where `wait_for_existing_spawn` leaves a launcher without a url: to the lock, or to the timed-out error. */
  function AfterNoSpawn(second: bool): Pc {
    if second then Failed else Acquiring
  }

  function AfterUrl(caller: Caller, url: string): Pc {
    if caller.UnderLock? then Dropping(Some(url)) else Returned(url)
  }

  /** One judged lockfile: its process, the reuse decision, its health. Nothing happens while its server is polled. */
  function Judge(w: World, i: nat, caller: Caller, snapshot: Lockfile): Option<World>
    requires i < |w.procs|
  {
    if snapshot.pid !in w.alive then Some(Moved(w, i, Discarding(caller)))
    else
      match Decide(w.procs[i].spec, snapshot.spec)
      case Ignore => Some(Moved(w, i, AfterNone(caller)))
      case RestartRequired =>
        Some(Moved(w, i, Clearing(caller)).(alive := w.alive - {snapshot.pid}, ready := w.ready - {snapshot.url}))
      case Reuse => if snapshot.url in w.ready then Some(Moved(w, i, AfterUrl(caller, snapshot.url))) else None
  }

  /** A launcher's next step when nothing fails and no deadline passes. */
  function Forward(w: World, i: nat): Option<World>
    requires i < |w.procs|
  {
    match w.procs[i].pc
    case Reading(caller) =>
      if w.lockfile.None? then Some(Moved(w, i, AfterNone(caller)))
      else Some(Moved(w, i, Judging(caller, w.lockfile.value)))
    case Judging(caller, snapshot) => Judge(w, i, caller, snapshot)
    case Discarding(caller) => Some(Moved(w, i, AfterNone(caller)).(lockfile := None))
    case Clearing(caller) => Some(Moved(w, i, ClearingLock(caller)).(lockfile := None))
    case ClearingLock(caller) => Some(Moved(w, i, AfterNone(caller)).(spawnLock := None))
    case StatLock(second) =>
      if w.spawnLock.None? then Some(Moved(w, i, AfterNoSpawn(second)))
      else if w.spawnLock.value.stale then Some(Moved(w, i, RemovingStale(second)))
      else Some(Moved(w, i, Reading(if second then SecondWait else FirstWait)))
    case RemovingStale(second) => Some(Moved(w, i, AfterNoSpawn(second)).(spawnLock := None))
    case Acquiring =>
      if w.spawnLock.None? then Some(Moved(w, i, Reading(UnderLock)).(spawnLock := Some(SpawnLock(i, false))))
      else Some(Moved(w, i, StatLock(true)))
    case AwaitingHealth(pid, url) =>
      if url in w.ready then Some(Moved(w, i, Renaming(Lockfile(pid, url, w.procs[i].spec)))) else None
    case Renaming(lockfile) => Some(Moved(w, i, Dropping(Some(lockfile.url))).(lockfile := Some(lockfile)))
    case Dropping(result) =>
      Some(Moved(w, i, if result.Some? then Returned(result.value) else Failed).(spawnLock := None))
    case _ => None
  }

  /** A deadline passes: the wait loops stop, a lockfile's server counts as unhealthy, a spawned one as failed. */
  function Deadline(w: World, i: nat): Option<World>
    requires i < |w.procs|
  {
    match w.procs[i].pc
    case Reading(FirstWait) => Some(Moved(w, i, AfterNoSpawn(false)))
    case Reading(SecondWait) => Some(Moved(w, i, AfterNoSpawn(true)))
    case Judging(caller, snapshot) =>
      var polled := snapshot.pid in w.alive && Decide(w.procs[i].spec, snapshot.spec).Reuse?;
      if snapshot.url in w.ready || !polled then None
      else Some(Moved(w, i, Discarding(caller)))
    case AwaitingHealth(_, url) => if url in w.ready then None else Some(Moved(w, i, Dropping(None)))
    case _ => None
  }

  /** One atomic step of the whole system; `None` when the action is not possible. */
  function Next(w: World, a: Action): Option<World> {
    match a
    case Go(i) => if i < |w.procs| then Forward(w, i) else None
    case GiveUp(i) => if i < |w.procs| then Deadline(w, i) else None
    case Spawn(i, url) =>
      if i < |w.procs| && w.procs[i].pc.Spawning?
      then Some(Moved(w, i, AwaitingHealth(|w.daemons|, url)).(
                  daemons := w.daemons + [url], alive := w.alive + {|w.daemons|}))
      else None
    case IoError(i) =>
      if i >= |w.procs| || w.procs[i].pc.Returned? || w.procs[i].pc.Failed? || w.procs[i].pc.Dropping? then None
      else Some(Moved(w, i, if InCriticalSection(w.procs[i].pc) then Dropping(None) else Failed))
    case BecomeReady(pid) =>
      if pid < |w.daemons| && pid in w.alive then Some(w.(ready := w.ready + {w.daemons[pid]})) else None
    case LoseHealth(pid) => if pid < |w.daemons| then Some(w.(ready := w.ready - {w.daemons[pid]})) else None
    case Crash(pid) =>
      if pid < |w.daemons| then Some(w.(alive := w.alive - {pid}, ready := w.ready - {w.daemons[pid]})) else None
    case AgeLock => if w.spawnLock.Some? then Some(w.(spawnLock := Some(w.spawnLock.value.(stale := true)))) else None
    case StopDaemon => Some(w.(lockfile := None, spawnLock := None))
  }

  /** A run: the state after a sequence of possible actions. */
  function Run(w: World, actions: seq<Action>): Option<World>
    decreases actions
  {
    if actions == [] then Some(w)
    else
      match Next(w, actions[0])
      case Some(next) => Run(next, actions[1..])
      case None => None
  }

  /** Launchers of these binaries, no file and no daemon. */
  function ColdStart(specs: seq<LaunchSpec>): World {
    World(None, None, seq(|specs|, i requires 0 <= i < |specs| => Process(specs[i], Reading(FirstCheck))), [], {}, {})
  }

  // Mutual exclusion.

  /** Nobody takes the spawn lock away from its holder: it never goes stale and no `stop` runs. */
  predicate LockUndisturbed(a: Action) {
    !a.AgeLock? && !a.StopDaemon?
  }

  /** No launcher finds that a daemon another has started must be restarted. */
  ghost predicate Peaceful(specs: set<LaunchSpec>) {
    forall a, b | a in specs && b in specs :: !Decide(a, b).RestartRequired?
  }

  /** What the program counter of a launcher implies while the launchers are peaceful and no lock ages. */
  predicate KnowsSpec(pc: Pc, specs: set<LaunchSpec>) {
    match pc
    case Judging(_, snapshot) => snapshot.spec in specs
    case Renaming(lockfile) => lockfile.spec in specs
    case Clearing(_) | ClearingLock(_) | RemovingStale(_) => false
    case _ => true
  }

  predicate Holds(w: World, i: nat) {
    w.spawnLock == Some(SpawnLock(i, false))
  }

  ghost predicate Exclusive(w: World, specs: set<LaunchSpec>) {
    && Peaceful(specs)
    && (forall i: nat | i < |w.procs| :: w.procs[i].spec in specs && KnowsSpec(w.procs[i].pc, specs))
    && (forall i: nat | i < |w.procs| :: InCriticalSection(w.procs[i].pc) <==> Holds(w, i))
    && (w.lockfile.Some? ==> w.lockfile.value.spec in specs)
    && (w.spawnLock.Some? ==> !w.spawnLock.value.stale)
  }

  /** The action of launcher `i`, if it is one. */
  function Actor(a: Action): Option<nat> {
    match a
    case Go(i) => Some(i)
    case GiveUp(i) => Some(i)
    case Spawn(i, _) => Some(i)
    case IoError(i) => Some(i)
    case _ => None
  }

  /** A launcher moves itself only. */
  lemma ActorMoves(w: World, a: Action)
    requires Next(w, a).Some?
    ensures var next := Next(w, a).value;
      if Actor(a).None? then next.procs == w.procs
      else Actor(a).value < |w.procs| && |next.procs| == |w.procs|
           && next.procs == Moved(w, Actor(a).value, next.procs[Actor(a).value].pc).procs
  {
    match a
    case Go(i) => assert w.procs[i := w.procs[i].(pc := Forward(w, i).value.procs[i].pc)] == Forward(w, i).value.procs;
    case GiveUp(i) =>
      assert w.procs[i := w.procs[i].(pc := Deadline(w, i).value.procs[i].pc)] == Deadline(w, i).value.procs;
    case _ =>
  }

  /** The spawn lock changes hands only between nobody and the launcher that moves, which then knows it. */
  predicate LockStep(w: World, next: World, i: nat, specs: set<LaunchSpec>)
    requires i < |w.procs| == |next.procs|
  {
    && KnowsSpec(next.procs[i].pc, specs)
    && (InCriticalSection(next.procs[i].pc) <==> Holds(next, i))
    && (next.spawnLock == w.spawnLock || (w.spawnLock.None? && Holds(next, i)) || (Holds(w, i) && next.spawnLock.None?))
    && (next.lockfile.Some? ==> next.lockfile.value.spec in specs)
  }

  lemma GoKeepsLock(w: World, i: nat, specs: set<LaunchSpec>)
    requires Exclusive(w, specs) && i < |w.procs| && Forward(w, i).Some?
    ensures |Forward(w, i).value.procs| == |w.procs| && LockStep(w, Forward(w, i).value, i, specs)
  {
    var p := w.procs[i];
    assert p.spec in specs && KnowsSpec(p.pc, specs) && (InCriticalSection(p.pc) <==> Holds(w, i));
  }

  lemma ActorKeepsLock(w: World, a: Action, i: nat, specs: set<LaunchSpec>)
    requires Exclusive(w, specs) && Actor(a) == Some(i) && Next(w, a).Some?
    ensures i < |w.procs| == |Next(w, a).value.procs| && LockStep(w, Next(w, a).value, i, specs)
  {
    var p := w.procs[i];
    assert p.spec in specs && KnowsSpec(p.pc, specs) && (InCriticalSection(p.pc) <==> Holds(w, i));
    if a.Go? { GoKeepsLock(w, i, specs); }
  }

  lemma ExclusiveKept(w: World, a: Action, specs: set<LaunchSpec>)
    requires Exclusive(w, specs) && LockUndisturbed(a) && Next(w, a).Some?
    ensures Exclusive(Next(w, a).value, specs)
  {
    var next := Next(w, a).value;
    ActorMoves(w, a);
    if Actor(a).Some? {
      var i := Actor(a).value;
      ActorKeepsLock(w, a, i, specs);
      forall j: nat | j < |w.procs| && j != i
        ensures next.procs[j] == w.procs[j] && (Holds(next, j) <==> Holds(w, j))
      {
      }
    }
  }

  lemma {:induction false} ExclusiveRun(w: World, actions: seq<Action>, specs: set<LaunchSpec>)
    requires Exclusive(w, specs) && (forall a | a in actions :: LockUndisturbed(a)) && Run(w, actions).Some?
    ensures Exclusive(Run(w, actions).value, specs)
    ensures |Run(w, actions).value.procs| == |w.procs|
    decreases actions
  {
    if actions == [] {
    } else {
      ExclusiveKept(w, actions[0], specs);
      ActorMoves(w, actions[0]);
      ExclusiveRun(Next(w, actions[0]).value, actions[1..], specs);
    }
  }

  function SpecsOf(specs: seq<LaunchSpec>): set<LaunchSpec> {
    set spec | spec in specs
  }

  /**
   Mutual exclusion: from a cold start of launchers none of which would restart another's daemon, over every
   interleaving in which the spawn lock is not disturbed, at most one launcher is between acquire and drop, and it is
   the one that created the lock. Daemons may crash, deadlines may pass and I/O may fail.
   */
  lemma MutualExclusion(specs: seq<LaunchSpec>, actions: seq<Action>, i: nat, j: nat)
    requires Peaceful(SpecsOf(specs)) && forall a | a in actions :: LockUndisturbed(a)
    requires Run(ColdStart(specs), actions).Some?
    requires i < |specs| && j < |specs|
    ensures var w := Run(ColdStart(specs), actions).value;
      && |w.procs| == |specs|
      && (InCriticalSection(w.procs[i].pc) && InCriticalSection(w.procs[j].pc) ==> i == j)
      && (InCriticalSection(w.procs[i].pc) ==> w.spawnLock == Some(SpawnLock(i, false)))
  {
    ExclusiveRun(ColdStart(specs), actions, SpecsOf(specs));
  }

  // A single daemon.

  /** Between spawning the daemon and publishing its lockfile. */
  predicate SpawnPending(pc: Pc) {
    pc.AwaitingHealth? || pc.Renaming?
  }

  /** The lock is undisturbed, daemons stay up, and a spawned daemon gets healthy and published. */
  predicate Calm(w: World, a: Action) {
    && LockUndisturbed(a) && !a.LoseHealth? && !a.Crash?
    && ((a.GiveUp? || a.IoError?) && a.id < |w.procs| ==> !SpawnPending(w.procs[a.id].pc))
  }

  predicate CalmRun(w: World, actions: seq<Action>)
    decreases actions
  {
    if actions == [] then true
    else
      var next := Next(w, actions[0]);
      Calm(w, actions[0]) && (next.Some? ==> CalmRun(next.value, actions[1..]))
  }

  /** The lockfile names the only daemon, which is up. */
  predicate Good(w: World, lockfile: Lockfile) {
    w.daemons == [lockfile.url] && lockfile.pid == 0 && 0 in w.alive && lockfile.url in w.ready
  }

  predicate Fits(w: World, pc: Pc) {
    match pc
    case Judging(_, snapshot) => Good(w, snapshot)
    case Discarding(_) => false
    case Spawning => w.daemons == []
    case AwaitingHealth(pid, url) => w.daemons == [url] && pid == 0 && 0 in w.alive
    case Renaming(lockfile) => Good(w, lockfile)
    case Dropping(Some(url)) => w.daemons == [url]
    case Returned(url) => w.daemons == [url]
    case _ => true
  }

  ghost predicate OneDaemon(w: World) {
    && |w.daemons| <= 1
    && (forall i: nat | i < |w.procs| :: Fits(w, w.procs[i].pc))
    && (w.lockfile.Some? ==> Good(w, w.lockfile.value))
    && Announced(w)
  }

  /** A daemon that no lockfile names is still in the hands of the launcher that holds the lock. */
  predicate Announced(w: World) {
    w.daemons != [] && w.lockfile.None? ==>
      w.spawnLock.Some? && w.spawnLock.value.creator < |w.procs| && SpawnPending(w.procs[w.spawnLock.value.creator].pc)
  }

  /** Daemons only appear while none is there, and never go. */
  predicate DaemonStep(w: World, next: World, i: nat)
    requires i < |w.procs| == |next.procs|
  {
    && Fits(next, next.procs[i].pc)
    && |next.daemons| <= 1
    && (next.daemons == w.daemons || (w.daemons == [] && Holds(w, i)))
    && w.alive <= next.alive && w.ready <= next.ready
    && (next.lockfile.Some? ==> Good(next, next.lockfile.value))
    && Announced(next)
  }

  lemma GoKeepsDaemon(w: World, i: nat, spec: LaunchSpec)
    requires Exclusive(w, {spec}) && OneDaemon(w) && i < |w.procs| && Forward(w, i).Some?
    ensures |Forward(w, i).value.procs| == |w.procs| && DaemonStep(w, Forward(w, i).value, i)
  {
    var p := w.procs[i];
    assert p.spec == spec && KnowsSpec(p.pc, {spec}) && Fits(w, p.pc);
    assert InCriticalSection(p.pc) <==> Holds(w, i);
  }

  lemma ActorKeepsDaemon(w: World, a: Action, i: nat, spec: LaunchSpec)
    requires Exclusive(w, {spec}) && OneDaemon(w) && Calm(w, a) && Actor(a) == Some(i) && Next(w, a).Some?
    ensures i < |w.procs| == |Next(w, a).value.procs| && DaemonStep(w, Next(w, a).value, i)
  {
    var p := w.procs[i];
    assert p.spec == spec && KnowsSpec(p.pc, {spec}) && Fits(w, p.pc);
    assert InCriticalSection(p.pc) <==> Holds(w, i);
    if a.Go? { GoKeepsDaemon(w, i, spec); }
  }

  lemma OneDaemonKept(w: World, a: Action, spec: LaunchSpec)
    requires Exclusive(w, {spec}) && OneDaemon(w) && Calm(w, a) && Next(w, a).Some?
    ensures OneDaemon(Next(w, a).value)
  {
    var next := Next(w, a).value;
    ActorMoves(w, a);
    if Actor(a).Some? {
      var i := Actor(a).value;
      ActorKeepsDaemon(w, a, i, spec);
      forall j: nat | j < |w.procs| && j != i
        ensures Fits(next, next.procs[j].pc)
      {
        assert next.procs[j] == w.procs[j] && Fits(w, w.procs[j].pc);
        assert Holds(w, i) ==> !InCriticalSection(w.procs[j].pc);
      }
    } else {
      forall j: nat | j < |w.procs|
        ensures Fits(next, next.procs[j].pc)
      {
        assert Fits(w, w.procs[j].pc);
      }
    }
  }

  lemma {:induction false} OneDaemonRun(w: World, actions: seq<Action>, spec: LaunchSpec)
    requires Exclusive(w, {spec}) && OneDaemon(w) && CalmRun(w, actions) && Run(w, actions).Some?
    ensures OneDaemon(Run(w, actions).value) && |Run(w, actions).value.procs| == |w.procs|
    decreases actions
  {
    if actions == [] {
    } else {
      ExclusiveKept(w, actions[0], {spec});
      OneDaemonKept(w, actions[0], spec);
      ActorMoves(w, actions[0]);
      OneDaemonRun(Next(w, actions[0]).value, actions[1..], spec);
    }
  }

  /**
   From a cold start, over every calm interleaving of any number of launchers, at most one daemon is ever spawned, and
   every launcher that succeeds returns that daemon's url.
   */
  lemma SingleDaemon(specs: seq<LaunchSpec>, spec: LaunchSpec, actions: seq<Action>, i: nat)
    requires forall mine | mine in specs :: mine == spec
    requires CalmRun(ColdStart(specs), actions) && Run(ColdStart(specs), actions).Some?
    requires i < |specs|
    ensures var w := Run(ColdStart(specs), actions).value;
      && |w.procs| == |specs|
      && |w.daemons| <= 1
      && (w.procs[i].pc.Returned? ==> w.daemons == [w.procs[i].pc.url])
  {
    assert forall k: nat | k < |specs| :: specs[k] in specs;
    OneDaemonRun(ColdStart(specs), actions, spec);
  }

  // What the assumptions buy.

  lemma {:induction false} Extend(w: World, actions: seq<Action>, a: Action)
    requires Run(w, actions).Some? && Next(Run(w, actions).value, a).Some?
    ensures Run(w, actions + [a]) == Next(Run(w, actions).value, a)
    ensures CalmRun(w, actions) && Calm(Run(w, actions).value, a) ==> CalmRun(w, actions + [a])
    decreases actions
  {
    var all := actions + [a];
    if actions == [] {
      assert all == [a] && all[1..] == [];
    } else {
      assert all[0] == actions[0] && all[1..] == actions[1..] + [a];
      Extend(Next(w, actions[0]).value, actions[1..], a);
    }
  }

  /** A launcher walks from the start to the acquisition of a free lock. */
  lemma Acquires(w: World, actions: seq<Action>, i: nat)
    requires Run(w, actions).Some?
    requires var x := Run(w, actions).value;
      i < |x.procs| && x.procs[i].pc == Acquiring && x.spawnLock.None?
    ensures Run(w, actions + [Go(i)])
         == Some(Moved(Run(w, actions).value, i, Reading(UnderLock)).(spawnLock := Some(SpawnLock(i, false))))
    ensures CalmRun(w, actions) ==> CalmRun(w, actions + [Go(i)])
  {
    Extend(w, actions, Go(i));
  }

  /** From a cold start, launcher `i` finds neither file and is about to create the lock. */
  lemma Arrives(w: World, actions: seq<Action>, i: nat)
    requires Run(w, actions).Some?
    requires var x := Run(w, actions).value;
      i < |x.procs| && x.procs[i].pc == Reading(FirstCheck) && x.spawnLock.None? && x.lockfile.None?
    ensures Run(w, actions + [Go(i)] + [Go(i)]) == Some(Moved(Run(w, actions).value, i, Acquiring))
    ensures CalmRun(w, actions) ==> CalmRun(w, actions + [Go(i)] + [Go(i)])
  {
    var x := Run(w, actions).value;
    Extend(w, actions, Go(i));
    Extend(w, actions + [Go(i)], Go(i));
    assert Moved(Moved(x, i, StatLock(false)), i, Acquiring).procs == Moved(x, i, Acquiring).procs;
  }

  /** The first launcher holds the lock, and the others have not begun. */
  function OneInside(specs: seq<LaunchSpec>): World
    requires specs != []
  {
    Moved(ColdStart(specs), 0, Reading(UnderLock)).(spawnLock := Some(SpawnLock(0, false)))
  }

  lemma ReachOneInside(specs: seq<LaunchSpec>)
    requires specs != []
    ensures Run(ColdStart(specs), [Go(0), Go(0), Go(0)]) == Some(OneInside(specs))
  {
    var start := ColdStart(specs);
    assert Run(start, []) == Some(start);
    Arrives(start, [], 0);
    Acquires(start, [] + [Go(0)] + [Go(0)], 0);
    assert [] + [Go(0)] + [Go(0)] + [Go(0)] == [Go(0), Go(0), Go(0)];
    assert Run(start, [Go(0), Go(0), Go(0)]).value.procs == OneInside(specs).procs;
  }

  /** The lock is gone while its holder is inside: the next launcher to try gets in as well. */
  lemma SecondGetsIn(specs: seq<LaunchSpec>, actions: seq<Action>)
    requires |specs| >= 2
    requires Run(ColdStart(specs), actions) == Some(Moved(OneInside(specs), 1, Acquiring).(spawnLock := None))
    ensures var end := Run(ColdStart(specs), actions + [Go(1)]);
      && end.Some? && |end.value.procs| == |specs|
      && InCriticalSection(end.value.procs[0].pc) && InCriticalSection(end.value.procs[1].pc)
  {
    Acquires(ColdStart(specs), actions, 1);
  }

  /** Once a lock can age, a second launcher removes it under its holder, and both are in the critical section. */
  lemma AgedLockBreaksExclusion(specs: seq<LaunchSpec>) returns (actions: seq<Action>)
    requires |specs| >= 2
    ensures forall a | a in actions :: a.Go? || a.AgeLock?
    ensures var end := Run(ColdStart(specs), actions);
      && end.Some? && |end.value.procs| == |specs|
      && InCriticalSection(end.value.procs[0].pc) && InCriticalSection(end.value.procs[1].pc)
  {
    var start := ColdStart(specs);
    ReachOneInside(specs);
    actions := [Go(0), Go(0), Go(0)];
    Extend(start, actions, AgeLock);
    actions := actions + [AgeLock];
    Extend(start, actions, Go(1));
    actions := actions + [Go(1)];
    Extend(start, actions, Go(1));
    actions := actions + [Go(1)];
    Extend(start, actions, Go(1));
    actions := actions + [Go(1)];
    assert Run(start, actions).value.procs == Moved(OneInside(specs), 1, Acquiring).procs;
    SecondGetsIn(specs, actions);
    actions := actions + [Go(1)];
  }

  /** A `stop` deletes the lock under its holder, with the same end. */
  lemma StopBreaksExclusion(specs: seq<LaunchSpec>) returns (actions: seq<Action>)
    requires |specs| >= 2
    ensures forall a | a in actions :: a.Go? || a.StopDaemon?
    ensures var end := Run(ColdStart(specs), actions);
      && end.Some? && |end.value.procs| == |specs|
      && InCriticalSection(end.value.procs[0].pc) && InCriticalSection(end.value.procs[1].pc)
  {
    var start := ColdStart(specs);
    ReachOneInside(specs);
    actions := [Go(0), Go(0), Go(0)];
    Extend(start, actions, StopDaemon);
    actions := actions + [StopDaemon];
    Arrives(start, actions, 1);
    actions := actions + [Go(1)] + [Go(1)];
    assert Run(start, actions).value.procs == Moved(OneInside(specs), 1, Acquiring).procs;
    SecondGetsIn(specs, actions);
    actions := actions + [Go(1)];
  }

  /** The world once launcher `i` has spawned the daemon, seen it ready, and published it. */
  function Published(w: World, i: nat, url: string): World
    requires i < |w.procs|
  {
    Moved(w, i, Dropping(Some(url))).(
      lockfile := Some(Lockfile(|w.daemons|, url, w.procs[i].spec)),
      daemons := w.daemons + [url], alive := w.alive + {|w.daemons|}, ready := w.ready + {url})
  }

  /** Launcher `i` finds no lockfile under the lock and spawns a daemon, which gets ready. */
  lemma SpawnsReady(w: World, actions: seq<Action>, i: nat, url: string) returns (after: seq<Action>)
    requires Run(w, actions).Some? && CalmRun(w, actions)
    requires var x := Run(w, actions).value; i < |x.procs| && x.procs[i].pc == Reading(UnderLock) && x.lockfile.None?
    ensures CalmRun(w, after)
    ensures var x := Run(w, actions).value;
      Run(w, after) == Some(Moved(x, i, AwaitingHealth(|x.daemons|, url)).(
        daemons := x.daemons + [url], alive := x.alive + {|x.daemons|}, ready := x.ready + {url}))
  {
    var x := Run(w, actions).value;
    Extend(w, actions, Go(i));
    var a := actions + [Go(i)];
    Extend(w, a, Spawn(i, url));
    var b := a + [Spawn(i, url)];
    Extend(w, b, BecomeReady(|x.daemons|));
    after := b + [BecomeReady(|x.daemons|)];
    assert Run(w, after).value.procs == Moved(x, i, AwaitingHealth(|x.daemons|, url)).procs;
  }

  lemma Spawns(w: World, actions: seq<Action>, i: nat, url: string) returns (after: seq<Action>)
    requires Run(w, actions).Some? && CalmRun(w, actions)
    requires var x := Run(w, actions).value; i < |x.procs| && x.procs[i].pc == Reading(UnderLock) && x.lockfile.None?
    ensures CalmRun(w, after) && Run(w, after) == Some(Published(Run(w, actions).value, i, url))
  {
    var x := Run(w, actions).value;
    var c := SpawnsReady(w, actions, i, url);
    Extend(w, c, Go(i));
    var d := c + [Go(i)];
    Extend(w, d, Go(i));
    after := d + [Go(i)];
    assert Run(w, after).value.procs == Moved(x, i, Dropping(Some(url))).procs;
  }

  /** Two launchers have both found neither file. */
  lemma BothAcquire(spec: LaunchSpec) returns (actions: seq<Action>)
    ensures CalmRun(ColdStart([spec, spec]), actions)
    ensures Run(ColdStart([spec, spec]), actions)
         == Some(World(None, None, [Process(spec, Acquiring), Process(spec, Acquiring)], [], {}, {}))
  {
    var start := ColdStart([spec, spec]);
    assert Run(start, []) == Some(start);
    Arrives(start, [], 0);
    Arrives(start, [] + [Go(0)] + [Go(0)], 1);
    actions := [] + [Go(0)] + [Go(0)] + [Go(1)] + [Go(1)];
    assert Run(start, actions).value.procs == [Process(spec, Acquiring), Process(spec, Acquiring)];
  }

  /** The first creates the lock; the second fails to, and is about to look at the lock again. */
  lemma OneLosesRace(spec: LaunchSpec) returns (actions: seq<Action>)
    ensures CalmRun(ColdStart([spec, spec]), actions)
    ensures Run(ColdStart([spec, spec]), actions)
         == Some(World(Some(SpawnLock(0, false)), None,
                       [Process(spec, Reading(UnderLock)), Process(spec, StatLock(true))], [], {}, {}))
  {
    var start := ColdStart([spec, spec]);
    actions := BothAcquire(spec);
    Extend(start, actions, Go(0));
    actions := actions + [Go(0)];
    Extend(start, actions, Go(1));
    actions := actions + [Go(1)];
    assert Run(start, actions).value.procs == [Process(spec, Reading(UnderLock)), Process(spec, StatLock(true))];
  }

  /** The winner drops the lock, and the loser of the race finds none. */
  lemma LoserFails(w: World, actions: seq<Action>, spec: LaunchSpec, url: string)
    requires Run(w, actions).Some? && CalmRun(w, actions)
    requires Run(w, actions).value.procs == [Process(spec, Dropping(Some(url))), Process(spec, StatLock(true))]
    ensures var all := actions + [Go(0)] + [Go(1)];
      && CalmRun(w, all)
      && Run(w, all) == Some(Run(w, actions).value.(
           spawnLock := None, procs := [Process(spec, Returned(url)), Process(spec, Failed)]))
  {
    Extend(w, actions, Go(0));
    Extend(w, actions + [Go(0)], Go(1));
    assert Run(w, actions + [Go(0)] + [Go(1)]).value.procs == [Process(spec, Returned(url)), Process(spec, Failed)];
  }

  /**
   Safety only: a launcher that loses the race to create the lock just as the winner drops it fails, although the run
   is calm and the lockfile names a ready daemon.
   */
  lemma LoserFailsBesideHealthyDaemon(spec: LaunchSpec, url: string) returns (actions: seq<Action>)
    ensures CalmRun(ColdStart([spec, spec]), actions)
    ensures Run(ColdStart([spec, spec]), actions)
         == Some(World(None, Some(Lockfile(0, url, spec)), [Process(spec, Returned(url)), Process(spec, Failed)],
                       [url], {0}, {url}))
  {
    var start := ColdStart([spec, spec]);
    actions := OneLosesRace(spec);
    actions := Spawns(start, actions, 0, url);
    var x := Run(start, actions).value;
    assert x.procs == [Process(spec, Dropping(Some(url))), Process(spec, StatLock(true))];
    assert x.daemons == [url] && x.alive == {0} && x.ready == {url};
    LoserFails(start, actions, spec, url);
    actions := actions + [Go(0)] + [Go(1)];
  }

  // When a launcher fails without deadlines and I/O errors.

  /** What a launcher's program counter implies in such a run: a lock once seen is held, or its daemon is published. */
  predicate Prompt(w: World, pc: Pc) {
    match pc
    case Judging(_, _) => w.lockfile.Some?
    case StatLock(second) => second ==> w.spawnLock.Some? || w.lockfile.Some?
    case Dropping(result) => result.Some? && w.lockfile.Some?
    case _ => true
  }

  ghost predicate AllPrompt(w: World) {
    forall i: nat | i < |w.procs| :: Prompt(w, w.procs[i].pc)
  }

  predicate InTime(a: Action) {
    !a.GiveUp? && !a.IoError?
  }

  /** The launcher is about to find, at its second look, that the lock is gone. */
  predicate LosesRace(w: World, a: Action, i: nat) {
    a == Go(i) && i < |w.procs| && w.procs[i].pc == StatLock(true) && w.spawnLock.None?
  }

  lemma ActorPrompt(w: World, a: Action, i: nat, spec: LaunchSpec)
    requires Exclusive(w, {spec}) && OneDaemon(w) && AllPrompt(w)
    requires Calm(w, a) && InTime(a) && Actor(a) == Some(i) && Next(w, a).Some?
    ensures i < |w.procs| == |Next(w, a).value.procs|
    ensures Prompt(Next(w, a).value, Next(w, a).value.procs[i].pc)
    ensures w.lockfile.Some? ==> Next(w, a).value.lockfile.Some?
    ensures w.spawnLock.Some? ==> Next(w, a).value.spawnLock.Some? || Next(w, a).value.lockfile.Some?
    ensures Next(w, a).value.procs[i].pc.Failed? ==> LosesRace(w, a, i)
  {
    var p := w.procs[i];
    assert p.spec == spec && KnowsSpec(p.pc, {spec}) && Fits(w, p.pc) && Prompt(w, p.pc);
  }

  lemma StepPrompt(w: World, a: Action, spec: LaunchSpec)
    requires Exclusive(w, {spec}) && OneDaemon(w) && AllPrompt(w) && Calm(w, a) && InTime(a) && Next(w, a).Some?
    ensures AllPrompt(Next(w, a).value) && |Next(w, a).value.procs| == |w.procs|
    ensures forall i: nat | i < |w.procs| :: Next(w, a).value.procs[i].pc.Failed? ==>
              w.procs[i].pc.Failed? || LosesRace(w, a, i)
  {
    var next := Next(w, a).value;
    ActorMoves(w, a);
    if Actor(a).Some? {
      var i := Actor(a).value;
      ActorPrompt(w, a, i, spec);
      forall j: nat | j < |w.procs| && j != i
        ensures next.procs[j] == w.procs[j] && Prompt(next, next.procs[j].pc)
      {
        assert Prompt(w, w.procs[j].pc);
      }
    } else {
      assert forall j: nat | j < |w.procs| :: Prompt(w, w.procs[j].pc);
    }
  }

  lemma {:induction false} FailureIsLostRace(w: World, actions: seq<Action>, i: nat, spec: LaunchSpec) returns (n: nat)
    requires Exclusive(w, {spec}) && OneDaemon(w) && AllPrompt(w)
    requires CalmRun(w, actions) && Run(w, actions).Some? && forall a | a in actions :: InTime(a)
    requires i < |w.procs| == |Run(w, actions).value.procs|
    requires !w.procs[i].pc.Failed? && Run(w, actions).value.procs[i].pc.Failed?
    ensures n < |actions| && Run(w, actions[..n]).Some? && LosesRace(Run(w, actions[..n]).value, actions[n], i)
    ensures OneDaemon(Run(w, actions[..n]).value) && Run(w, actions[..n]).value.lockfile.Some?
    decreases actions
  {
    var next := Next(w, actions[0]).value;
    StepPrompt(w, actions[0], spec);
    if next.procs[i].pc.Failed? {
      n := 0;
      assert actions[..0] == [] && Prompt(w, w.procs[i].pc);
    } else {
      ExclusiveKept(w, actions[0], {spec});
      OneDaemonKept(w, actions[0], spec);
      var m := FailureIsLostRace(next, actions[1..], i, spec);
      n := m + 1;
      assert actions[..n][1..] == actions[1..][..m];
    }
  }

  /**
   In a calm run of launchers of one binary, without deadlines and I/O errors, a launcher fails only at its second look
   at a lock that its winner has just dropped, when the lockfile already names the one daemon, which is up.
   */
  lemma FailsOnlyBesideHealthyDaemon(specs: seq<LaunchSpec>, spec: LaunchSpec, actions: seq<Action>, i: nat)
    returns (n: nat)
    requires (forall mine | mine in specs :: mine == spec) && forall a | a in actions :: InTime(a)
    requires CalmRun(ColdStart(specs), actions) && Run(ColdStart(specs), actions).Some?
    requires i < |specs| == |Run(ColdStart(specs), actions).value.procs|
    requires Run(ColdStart(specs), actions).value.procs[i].pc.Failed?
    ensures n < |actions| && Run(ColdStart(specs), actions[..n]).Some?
    ensures var w := Run(ColdStart(specs), actions[..n]).value;
      LosesRace(w, actions[n], i) && w.lockfile.Some? && Good(w, w.lockfile.value)
  {
    assert forall k: nat | k < |specs| :: specs[k] in specs;
    n := FailureIsLostRace(ColdStart(specs), actions, i, spec);
  }

  // When the launchers are not peaceful.

  /** Launcher `j` is about to judge a lockfile whose daemon it must restart: it kills it and clears both files. */
  lemma ClearsBoth(w: World, actions: seq<Action>, j: nat) returns (after: seq<Action>)
    requires Run(w, actions).Some? && CalmRun(w, actions)
    requires var x := Run(w, actions).value;
      && j < |x.procs| && x.procs[j].pc == Reading(FirstCheck)
      && x.lockfile.Some? && x.lockfile.value.pid in x.alive
      && Decide(x.procs[j].spec, x.lockfile.value.spec).RestartRequired?
    ensures CalmRun(w, after) && Run(w, after).Some?
    ensures var x, y := Run(w, actions).value, Run(w, after).value;
      y.procs == Moved(x, j, StatLock(false)).procs && y.spawnLock.None? && y.lockfile.None?
  {
    var x := Run(w, actions).value;
    Extend(w, actions, Go(j));
    var a := actions + [Go(j)];
    Extend(w, a, Go(j));
    var b := a + [Go(j)];
    Extend(w, b, Go(j));
    var c := b + [Go(j)];
    Extend(w, c, Go(j));
    after := c + [Go(j)];
    assert Run(w, after).value.procs == Moved(x, j, StatLock(false)).procs;
  }

  /** From there it creates the lock anew. */
  lemma LocksAnew(w: World, actions: seq<Action>, j: nat) returns (after: seq<Action>)
    requires Run(w, actions).Some? && CalmRun(w, actions)
    requires var x := Run(w, actions).value; j < |x.procs| && x.procs[j].pc == StatLock(false) && x.spawnLock.None?
    ensures CalmRun(w, after) && Run(w, after).Some?
    ensures Run(w, after).value.procs == Moved(Run(w, actions).value, j, Reading(UnderLock)).procs
  {
    var x := Run(w, actions).value;
    Extend(w, actions, Go(j));
    var a := actions + [Go(j)];
    Acquires(w, a, j);
    after := a + [Go(j)];
    assert Run(w, after).value.procs == Moved(x, j, Reading(UnderLock)).procs;
  }

  /** Launcher `i` starts a daemon while the others wait, and has yet to drop the lock. */
  lemma Starts(w: World, i: nat, url: string) returns (actions: seq<Action>)
    requires i < |w.procs| && w.procs[i].pc == Reading(FirstCheck) && w.spawnLock.None? && w.lockfile.None?
    ensures CalmRun(w, actions)
    ensures Run(w, actions) == Some(Published(w, i, url).(spawnLock := Some(SpawnLock(i, false))))
  {
    assert Run(w, []) == Some(w);
    Arrives(w, [], i);
    var a := [] + [Go(i)] + [Go(i)];
    Acquires(w, a, i);
    actions := Spawns(w, a + [Go(i)], i, url);
    assert Run(w, actions).value.procs == Published(w, i, url).procs;
  }

  /**
   A launcher that must restart another's daemon deletes the lock the other still holds, creates it anew, and both are
   in the critical section, in a run that is calm in every other way.
   */
  lemma RestartBreaksExclusion(specs: seq<LaunchSpec>, i: nat, j: nat, url: string) returns (actions: seq<Action>)
    requires i < |specs| && j < |specs| && Decide(specs[j], specs[i]).RestartRequired?
    ensures i != j && CalmRun(ColdStart(specs), actions) && Run(ColdStart(specs), actions).Some?
    ensures var w := Run(ColdStart(specs), actions).value;
      |w.procs| == |specs| && InCriticalSection(w.procs[i].pc) && InCriticalSection(w.procs[j].pc)
  {
    var start := ColdStart(specs);
    actions := Starts(start, i, url);
    actions := ClearsBoth(start, actions, j);
    actions := LocksAnew(start, actions, j);
  }

  lemma {:induction false} CalmIsUndisturbed(w: World, actions: seq<Action>, a: Action)
    requires CalmRun(w, actions) && Run(w, actions).Some? && a in actions
    ensures LockUndisturbed(a)
    decreases actions
  {
    if a == actions[0] {
    } else {
      CalmIsUndisturbed(Next(w, actions[0]).value, actions[1..], a);
    }
  }

  ghost predicate AtMostOneInside(w: World) {
    forall i: nat, j: nat | i < |w.procs| && j < |w.procs| ::
      InCriticalSection(w.procs[i].pc) && InCriticalSection(w.procs[j].pc) ==> i == j
  }

  /** Locks may age, or a `stop` may run, only where allowed. */
  predicate Permitted(a: Action, mayAge: bool, mayStop: bool) {
    (a.AgeLock? ==> mayAge) && (a.StopDaemon? ==> mayStop)
  }

  ghost predicate PermittedRun(specs: seq<LaunchSpec>, mayAge: bool, mayStop: bool, actions: seq<Action>) {
    (forall a | a in actions :: Permitted(a, mayAge, mayStop)) && Run(ColdStart(specs), actions).Some?
  }

  lemma {:induction false} SameLaunchers(w: World, actions: seq<Action>)
    requires Run(w, actions).Some?
    ensures |Run(w, actions).value.procs| == |w.procs|
    decreases actions
  {
    if actions == [] {
    } else {
      ActorMoves(w, actions[0]);
      SameLaunchers(Next(w, actions[0]).value, actions[1..]);
    }
  }

  /** A permitted run that lets two launchers in, where one of the conditions fails. */
  lemma ExclusionBroken(specs: seq<LaunchSpec>, mayAge: bool, mayStop: bool) returns (actions: seq<Action>)
    requires |specs| >= 2 && (!Peaceful(SpecsOf(specs)) || mayAge || mayStop)
    ensures PermittedRun(specs, mayAge, mayStop, actions)
    ensures !AtMostOneInside(Run(ColdStart(specs), actions).value)
  {
    if mayAge {
      actions := AgedLockBreaksExclusion(specs);
    } else if mayStop {
      actions := StopBreaksExclusion(specs);
    } else {
      var b, a :| b in SpecsOf(specs) && a in SpecsOf(specs) && Decide(b, a).RestartRequired?;
      var i: nat :| i < |specs| && specs[i] == a;
      var j: nat :| j < |specs| && specs[j] == b;
      actions := RestartBreaksExclusion(specs, i, j, "");
      forall step | step in actions
        ensures Permitted(step, mayAge, mayStop)
      {
        CalmIsUndisturbed(ColdStart(specs), actions, step);
      }
    }
  }

  /**
   Mutual exclusion, exactly: every permitted run of these launchers keeps at most one in the critical section if and
   only if there is at most one of them, or they are peaceful, no lock may age and no `stop` may run.
   */
  lemma MutualExclusionIff(specs: seq<LaunchSpec>, mayAge: bool, mayStop: bool)
    ensures |specs| < 2 || (Peaceful(SpecsOf(specs)) && !mayAge && !mayStop) <==>
      forall actions | PermittedRun(specs, mayAge, mayStop, actions) ::
        AtMostOneInside(Run(ColdStart(specs), actions).value)
  {
    if |specs| < 2 || (Peaceful(SpecsOf(specs)) && !mayAge && !mayStop) {
      forall actions | PermittedRun(specs, mayAge, mayStop, actions)
        ensures AtMostOneInside(Run(ColdStart(specs), actions).value)
      {
        SameLaunchers(ColdStart(specs), actions);
        if |specs| >= 2 { ExclusiveRun(ColdStart(specs), actions, SpecsOf(specs)); }
      }
    } else {
      var actions := ExclusionBroken(specs, mayAge, mayStop);
      assert PermittedRun(specs, mayAge, mayStop, actions);
    }
  }
}
