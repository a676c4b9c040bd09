/**
 What a launcher makes of the lockfile it finds, and why it succeeds or fails in the end: over every run at all, with
 daemons that crash, deadlines that pass, I/O that fails, locks that age and stops that run.
 */
module LauncherChecks {
  import opened Prelude
  import opened Launcher

  // What every run keeps.

  /** The pid and the url are those of one spawned daemon. */
  predicate Names(w: World, pid: nat, url: string) {
    pid < |w.daemons| && w.daemons[pid] == url
  }

  predicate NamesDaemon(w: World, pc: Pc) {
    match pc
    case Judging(_, snapshot) => Names(w, snapshot.pid, snapshot.url)
    case AwaitingHealth(pid, url) => Names(w, pid, url)
    case Renaming(lockfile) => Names(w, lockfile.pid, lockfile.url)
    case _ => true
  }

  /** A daemon with this url is alive and answers. */
  ghost predicate Up(w: World, url: string) {
    url in w.ready && exists pid :: pid in w.alive && Names(w, pid, url)
  }

  /** Lockfiles and launchers speak of spawned daemons, and whatever answers is alive. */
  ghost predicate Grounded(w: World) {
    && (forall i: nat | i < |w.procs| :: NamesDaemon(w, w.procs[i].pc))
    && (w.lockfile.Some? ==> Names(w, w.lockfile.value.pid, w.lockfile.value.url))
    && (forall pid | pid in w.alive :: pid < |w.daemons|)
    && (forall url | url in w.ready :: Up(w, url))
  }

  /** Which daemons are named, alive and ready after a step, when the step starts none. */
  predicate Dwindles(w: World, next: World) {
    && next.daemons == w.daemons && next.alive <= w.alive
    && (forall pid | pid in w.alive && pid !in next.alive :: pid < |w.daemons| ==> w.daemons[pid] !in next.ready)
    && next.ready <= w.ready
  }

  lemma DwindlesUp(w: World, next: World)
    requires Grounded(w) && Dwindles(w, next)
    ensures forall url | url in next.ready :: Up(next, url)
  {
    forall url | url in next.ready
      ensures Up(next, url)
    {
      var pid :| pid in w.alive && Names(w, pid, url);
      assert pid in next.alive && Names(next, pid, url);
    }
  }

  lemma BecomesReadyUp(w: World, pid: nat)
    requires Grounded(w) && Next(w, BecomeReady(pid)).Some?
    ensures forall url | url in Next(w, BecomeReady(pid)).value.ready :: Up(Next(w, BecomeReady(pid)).value, url)
  {
    var next := Next(w, BecomeReady(pid)).value;
    forall url | url in next.ready
      ensures Up(next, url)
    {
      var known :| known in w.alive && (url == w.daemons[pid] ==> known == pid) && Names(w, known, url);
      assert Names(next, known, url);
    }
  }

  lemma SpawnUp(w: World, i: nat, added: string)
    requires Grounded(w) && Next(w, Spawn(i, added)).Some?
    ensures forall url | url in Next(w, Spawn(i, added)).value.ready :: Up(Next(w, Spawn(i, added)).value, url)
  {
    var next := Next(w, Spawn(i, added)).value;
    forall url | url in next.ready
      ensures Up(next, url)
    {
      var pid :| pid in w.alive && Names(w, pid, url);
      assert pid in next.alive && Names(next, pid, url);
    }
  }

  lemma StepUp(w: World, a: Action)
    requires Grounded(w) && Next(w, a).Some?
    ensures forall url | url in Next(w, a).value.ready :: Up(Next(w, a).value, url)
    ensures forall pid | pid in Next(w, a).value.alive :: pid < |Next(w, a).value.daemons|
    ensures w.daemons <= Next(w, a).value.daemons
  {
    match a
    case BecomeReady(pid) => BecomesReadyUp(w, pid);
    case Spawn(i, url) => SpawnUp(w, i, url);
    case Go(i) =>
      assert NamesDaemon(w, w.procs[i].pc);
      DwindlesUp(w, Next(w, a).value);
    case _ => DwindlesUp(w, Next(w, a).value);
  }

  lemma ActorNames(w: World, a: Action, i: nat)
    requires Grounded(w) && Next(w, a).Some? && Actor(a) == Some(i)
    ensures i < |w.procs| == |Next(w, a).value.procs|
    ensures NamesDaemon(Next(w, a).value, Next(w, a).value.procs[i].pc)
    ensures var lockfile := Next(w, a).value.lockfile;
      lockfile.Some? ==> Names(Next(w, a).value, lockfile.value.pid, lockfile.value.url)
  {
    assert NamesDaemon(w, w.procs[i].pc);
  }

  lemma GroundedKept(w: World, a: Action)
    requires Grounded(w) && Next(w, a).Some?
    ensures Grounded(Next(w, a).value)
  {
    var next := Next(w, a).value;
    ActorMoves(w, a);
    StepUp(w, a);
    if Actor(a).Some? { ActorNames(w, a, Actor(a).value); }
    forall j: nat | j < |w.procs| && Actor(a) != Some(j)
      ensures NamesDaemon(next, next.procs[j].pc)
    {
      assert next.procs[j] == w.procs[j] && NamesDaemon(w, w.procs[j].pc);
    }
  }

  lemma {:induction false} GroundedRun(w: World, actions: seq<Action>)
    requires Grounded(w) && Run(w, actions).Some?
    ensures Grounded(Run(w, actions).value)
    decreases actions
  {
    if actions == [] {
    } else {
      GroundedKept(w, actions[0]);
      GroundedRun(Next(w, actions[0]).value, actions[1..]);
    }
  }

  /** A run without its last step is a run. */
  lemma {:induction false} RunLast(w: World, actions: seq<Action>, a: Action)
    requires Run(w, actions + [a]).Some?
    ensures Run(w, actions).Some? && Next(Run(w, actions).value, a) == Run(w, actions + [a])
    decreases actions
  {
    var all := actions + [a];
    if actions == [] {
      assert all == [a] && all[1..] == [];
    } else {
      assert all[0] == actions[0] && all[1..] == actions[1..] + [a];
      RunLast(Next(w, actions[0]).value, actions[1..], a);
    }
  }

  // What a lockfile leads to.

  /** The launcher has a url: the one it will return, or has returned. */
  function TakenUrl(pc: Pc): Option<string> {
    match pc
    case Renaming(lockfile) => Some(lockfile.url)
    case Dropping(result) => result
    case Returned(url) => Some(url)
    case _ => None
  }

  /** The lockfile was written by a launcher of the same binary. */
  predicate SameBinary(mine: LaunchSpec, snapshot: Lockfile) {
    snapshot.spec.serverBin == mine.serverBin
  }

  /** It was, but the binary has changed on disk since. */
  predicate Outdated(mine: LaunchSpec, snapshot: Lockfile) {
    SameBinary(mine, snapshot) && mine.fingerprint.Some? && snapshot.spec.fingerprint != mine.fingerprint
  }

  /**
   A url is taken from a lockfile only while its process is alive, answers, and runs the launcher's own binary as it is
   on disk: in every run, whatever step takes a launcher from judging a lockfile to a url takes that lockfile's url.
   */
  lemma UrlTakenIsUp(specs: seq<LaunchSpec>, actions: seq<Action>, a: Action, i: nat)
    requires i < |specs| && Run(ColdStart(specs), actions + [a]).Some?
    ensures Run(ColdStart(specs), actions).Some?
    ensures var w, next := Run(ColdStart(specs), actions).value, Run(ColdStart(specs), actions + [a]).value;
      && |w.procs| == |next.procs| == |specs|
      && (w.procs[i].pc.Judging? && TakenUrl(next.procs[i].pc).Some? ==>
            var snapshot := w.procs[i].pc.snapshot;
            && snapshot.pid in w.alive && snapshot.url in w.ready && Names(w, snapshot.pid, snapshot.url)
            && TakenUrl(next.procs[i].pc) == Some(snapshot.url)
            && SameBinary(w.procs[i].spec, snapshot) && !Outdated(w.procs[i].spec, snapshot)
            && next.lockfile == w.lockfile && next.spawnLock == w.spawnLock)
  {
    RunLast(ColdStart(specs), actions, a);
    var w := Run(ColdStart(specs), actions).value;
    SameLaunchers(ColdStart(specs), actions);
    SameLaunchers(ColdStart(specs), actions + [a]);
    GroundedRun(ColdStart(specs), actions);
    ActorMoves(w, a);
    assert NamesDaemon(w, w.procs[i].pc);
  }

  /** Where a launcher goes on when the check has found nothing: to look at the lock, to wait, or to spawn. */
  predicate GoesOn(pc: Pc) {
    pc.StatLock? || pc.Spawning? || pc == Reading(FirstWait) || pc == Reading(SecondWait)
  }

  /** The launcher is done, or about to drop the lock and be done. */
  predicate IsOver(pc: Pc) {
    pc.Dropping? || pc.Returned? || pc.Failed?
  }

  lemma {:induction false} OverStaysOver(w: World, actions: seq<Action>, i: nat)
    requires i < |w.procs| && IsOver(w.procs[i].pc) && Run(w, actions).Some?
    ensures |Run(w, actions).value.procs| == |w.procs| && IsOver(Run(w, actions).value.procs[i].pc)
    decreases actions
  {
    if actions == [] {
    } else {
      ActorMoves(w, actions[0]);
      OverStaysOver(Next(w, actions[0]).value, actions[1..], i);
    }
  }

  /** The lockfile is judged and must go, or is about to: an outdated daemon has been terminated by then. */
  predicate MustGo(w: World, i: nat, caller: Caller, snapshot: Lockfile)
    requires i < |w.procs|
  {
    && snapshot.pid < |w.daemons|
    && match w.procs[i].pc
       case Judging(c, s) =>
         c == caller && s == snapshot && (snapshot.pid !in w.alive || SameBinary(w.procs[i].spec, snapshot))
       case Discarding(c) => c == caller && (Outdated(w.procs[i].spec, snapshot) ==> snapshot.pid !in w.alive)
       case Clearing(c) => c == caller && snapshot.pid !in w.alive
       case _ => false
  }

  /** The launcher itself removes the lockfile. */
  predicate RemovesLockfile(w: World, a: Action, i: nat) {
    a == Go(i) && i < |w.procs| && (w.procs[i].pc.Discarding? || w.procs[i].pc.Clearing?)
    && Next(w, a).Some? && Next(w, a).value.lockfile.None?
  }

  lemma MustGoStep(w: World, a: Action, i: nat, caller: Caller, snapshot: Lockfile)
    requires i < |w.procs| && MustGo(w, i, caller, snapshot) && Next(w, a).Some?
    ensures |Next(w, a).value.procs| == |w.procs| && Next(w, a).value.procs[i].spec == w.procs[i].spec
    ensures MustGo(Next(w, a).value, i, caller, snapshot) || IsOver(Next(w, a).value.procs[i].pc)
         || RemovesLockfile(w, a, i)
  {
    ActorMoves(w, a);
  }

  lemma {:induction false} RemovedFirst(w: World, actions: seq<Action>, i: nat, caller: Caller, snapshot: Lockfile)
    returns (k: nat)
    requires i < |w.procs| && MustGo(w, i, caller, snapshot)
    requires Run(w, actions).Some? && |Run(w, actions).value.procs| == |w.procs|
    requires GoesOn(Run(w, actions).value.procs[i].pc)
    ensures k < |actions| && Run(w, actions[..k]).Some? && RemovesLockfile(Run(w, actions[..k]).value, actions[k], i)
    ensures Outdated(w.procs[i].spec, snapshot) ==> snapshot.pid !in Run(w, actions[..k]).value.alive
    ensures forall j | 0 <= j <= k :: Run(w, actions[..j]).Some?
                                   && i < |Run(w, actions[..j]).value.procs|
                                   && MustGo(Run(w, actions[..j]).value, i, caller, snapshot)
    decreases actions
  {
    var next := Next(w, actions[0]).value;
    assert actions[..0] == [];
    MustGoStep(w, actions[0], i, caller, snapshot);
    if RemovesLockfile(w, actions[0], i) {
      k := 0;
    } else {
      if IsOver(next.procs[i].pc) { OverStaysOver(next, actions[1..], i); }
      var m := RemovedFirst(next, actions[1..], i, caller, snapshot);
      k := m + 1;
      forall j: nat | 0 < j <= k
        ensures Run(w, actions[..j]) == Run(next, actions[1..][..j - 1])
      {
        assert actions[..j][1..] == actions[1..][..j - 1];
      }
    }
  }

  /**
   A lockfile whose process is dead, or that this binary wrote and that leads to no url, is removed by the launcher that
   judged it before that launcher looks at the lock, waits or spawns; and a daemon of the binary as it was before a
   change is terminated by then. Only a lockfile of another binary, whose process is alive, is left alone.
   */
  lemma JudgedLockfileRemoved(specs: seq<LaunchSpec>, before: seq<Action>, actions: seq<Action>, i: nat)
    returns (k: nat)
    requires i < |specs| && Run(ColdStart(specs), before).Some?
    requires var w := Run(ColdStart(specs), before).value;
      && |w.procs| == |specs| && w.procs[i].pc.Judging?
      && (w.procs[i].pc.snapshot.pid !in w.alive || SameBinary(w.procs[i].spec, w.procs[i].pc.snapshot))
      && Run(w, actions).Some? && |Run(w, actions).value.procs| == |specs|
      && GoesOn(Run(w, actions).value.procs[i].pc)
    ensures var w := Run(ColdStart(specs), before).value; var snapshot := w.procs[i].pc.snapshot;
      && k < |actions| && Run(w, actions[..k]).Some?
      && RemovesLockfile(Run(w, actions[..k]).value, actions[k], i)
      && (Outdated(w.procs[i].spec, snapshot) ==> snapshot.pid !in Run(w, actions[..k]).value.alive)
      && forall j | 0 <= j <= k ::
           Run(w, actions[..j]).Some? && |Run(w, actions[..j]).value.procs| == |specs|
           && !GoesOn(Run(w, actions[..j]).value.procs[i].pc)
  {
    var w := Run(ColdStart(specs), before).value;
    GroundedRun(ColdStart(specs), before);
    assert NamesDaemon(w, w.procs[i].pc);
    k := RemovedFirst(w, actions, i, w.procs[i].pc.caller, w.procs[i].pc.snapshot);
    forall j | 0 <= j <= k
      ensures Run(w, actions[..j]).Some? && |Run(w, actions[..j]).value.procs| == |specs|
      ensures !GoesOn(Run(w, actions[..j]).value.procs[i].pc)
    {
      SameLaunchers(w, actions[..j]);
    }
  }

  /** The lockfile of another binary, whose process is alive: the launcher goes on, and has changed nothing. */
  lemma OtherBinaryLeftAlone(w: World, i: nat)
    requires i < |w.procs| && w.procs[i].pc.Judging? && w.procs[i].pc.snapshot.pid in w.alive
    requires !SameBinary(w.procs[i].spec, w.procs[i].pc.snapshot)
    ensures Next(w, GiveUp(i)).None? && Next(w, Go(i)).Some?
    ensures var next := Next(w, Go(i)).value;
      && next == w.(procs := next.procs) && |next.procs| == |w.procs| && GoesOn(next.procs[i].pc)
      && forall j | 0 <= j < |w.procs| && j != i :: next.procs[j] == w.procs[j]
  {
  }

  /**
   No launcher ends a daemon but one whose lockfile it has judged, and only because the binary, its own, has changed on
   disk since: whatever step of a launcher ends a daemon, in any run.
   */
  lemma OnlyOutdatedEnded(specs: seq<LaunchSpec>, actions: seq<Action>, a: Action, i: nat, pid: nat)
    requires i < |specs| && Actor(a) == Some(i) && Run(ColdStart(specs), actions + [a]).Some?
    ensures Run(ColdStart(specs), actions).Some?
    ensures var w, next := Run(ColdStart(specs), actions).value, Run(ColdStart(specs), actions + [a]).value;
      |w.procs| == |specs| && (pid in w.alive && pid !in next.alive ==>
        && a == Go(i) && w.procs[i].pc.Judging? && w.procs[i].pc.snapshot.pid == pid
        && Outdated(w.procs[i].spec, w.procs[i].pc.snapshot))
  {
    RunLast(ColdStart(specs), actions, a);
    SameLaunchers(ColdStart(specs), actions);
  }

  /** The check for a healthy lockfile that the launcher is in the middle of, by who asked for it. */
  function CheckFor(pc: Pc): Option<Caller> {
    match pc
    case Reading(caller) => Some(caller)
    case Judging(caller, _) => Some(caller)
    case Discarding(caller) => Some(caller)
    case Clearing(caller) => Some(caller)
    case ClearingLock(caller) => Some(caller)
    case _ => None
  }

  /**
   Where a check ends, whatever the world is like: at a url; after the first check, at the lock; under the lock, at the
   spawn. A wait is repeated until it finds a url or its deadline passes, which sends the first to acquire the lock and
   makes the second fail.
   */
  lemma WhereChecksEnd(w: World, a: Action, i: nat)
    requires i < |w.procs| && CheckFor(w.procs[i].pc).Some? && Actor(a) == Some(i) && Next(w, a).Some?
    ensures var next := Next(w, a).value; |next.procs| == |w.procs| && var pc, after := w.procs[i].pc, next.procs[i].pc;
      || CheckFor(after) == CheckFor(pc)
      || TakenUrl(after).Some?
      || (a == IoError(i) && IsFailing(after))
      || (CheckFor(pc) == Some(FirstCheck) && after == StatLock(false))
      || (CheckFor(pc) == Some(UnderLock) && after == Spawning)
      || (a == GiveUp(i) && pc == Reading(FirstWait) && after == Acquiring)
      || (a == GiveUp(i) && pc == Reading(SecondWait) && after == Failed)
  {
    ActorMoves(w, a);
  }

  // Success and failure.

  /** The launcher is about to take the url: from a lockfile it judges, or of the daemon it has spawned. */
  predicate Sees(pc: Pc, url: string) {
    match pc
    case Judging(_, snapshot) => snapshot.url == url
    case AwaitingHealth(_, spawned) => spawned == url
    case _ => false
  }

  /** The step that takes a url. */
  lemma TakesWhenUp(w: World, a: Action, i: nat, url: string)
    requires Grounded(w) && i < |w.procs| && TakenUrl(w.procs[i].pc) != Some(url) && Next(w, a).Some?
    requires |Next(w, a).value.procs| == |w.procs| && TakenUrl(Next(w, a).value.procs[i].pc) == Some(url)
    ensures a == Go(i) && Sees(w.procs[i].pc, url) && Up(w, url)
  {
    ActorMoves(w, a);
  }

  lemma {:induction false} TakenWhenUp(w: World, actions: seq<Action>, i: nat, url: string) returns (n: nat)
    requires Grounded(w) && i < |w.procs| && TakenUrl(w.procs[i].pc) != Some(url)
    requires Run(w, actions).Some? && |Run(w, actions).value.procs| == |w.procs|
    requires TakenUrl(Run(w, actions).value.procs[i].pc) == Some(url)
    ensures n < |actions| && actions[n] == Go(i) && Run(w, actions[..n]).Some?
    ensures var x := Run(w, actions[..n]).value;
      i < |x.procs| && Sees(x.procs[i].pc, url) && Up(x, url)
    decreases actions
  {
    var next := Next(w, actions[0]).value;
    GroundedKept(w, actions[0]);
    ActorMoves(w, actions[0]);
    if TakenUrl(next.procs[i].pc) == Some(url) {
      TakesWhenUp(w, actions[0], i, url);
      n := 0;
      assert actions[..0] == [];
    } else {
      var m := TakenWhenUp(next, actions[1..], i, url);
      n := m + 1;
      assert actions[..n][1..] == actions[1..][..m];
    }
  }

  /**
   Every success, in every run at all: when a launcher has returned a url, there was a moment of the run when a daemon
   with this url was alive and answered, and the launcher took the url from its lockfile or had spawned it.
   */
  lemma SuccessWasUp(specs: seq<LaunchSpec>, actions: seq<Action>, i: nat) returns (n: nat)
    requires i < |specs| && Run(ColdStart(specs), actions).Some?
    requires var w := Run(ColdStart(specs), actions).value; |w.procs| == |specs| && w.procs[i].pc.Returned?
    ensures n < |actions| && actions[n] == Go(i) && Run(ColdStart(specs), actions[..n]).Some?
    ensures var x := Run(ColdStart(specs), actions[..n]).value;
      var url := Run(ColdStart(specs), actions).value.procs[i].pc.url;
      i < |x.procs| && Sees(x.procs[i].pc, url) && Up(x, url)
  {
    n := TakenWhenUp(ColdStart(specs), actions, i, Run(ColdStart(specs), actions).value.procs[i].pc.url);
  }

  /** The step that makes a launcher fail, and in what situation it does. */
  predicate Fails(w: World, a: Action, i: nat) {
    && i < |w.procs|
    && (|| a == IoError(i)
        || (a == GiveUp(i) && w.procs[i].pc == Reading(SecondWait))
        || (a == GiveUp(i) && w.procs[i].pc.AwaitingHealth? && w.procs[i].pc.url !in w.ready)
        || (a == Go(i) && w.procs[i].pc == StatLock(true) && w.spawnLock.None?)
        || (a == Go(i) && w.procs[i].pc == RemovingStale(true)))
  }

  predicate IsFailing(pc: Pc) {
    pc.Failed? || pc == Dropping(None)
  }

  lemma {:induction false} FailingStep(w: World, actions: seq<Action>, i: nat) returns (n: nat)
    requires i < |w.procs| && !IsFailing(w.procs[i].pc)
    requires Run(w, actions).Some? && |Run(w, actions).value.procs| == |w.procs|
    requires IsFailing(Run(w, actions).value.procs[i].pc)
    ensures n < |actions| && Run(w, actions[..n]).Some? && Fails(Run(w, actions[..n]).value, actions[n], i)
    decreases actions
  {
    var next := Next(w, actions[0]).value;
    ActorMoves(w, actions[0]);
    if IsFailing(next.procs[i].pc) {
      n := 0;
      assert actions[..0] == [];
    } else {
      var m := FailingStep(next, actions[1..], i);
      n := m + 1;
      assert actions[..n][1..] == actions[1..][..m];
    }
  }

  /**
   Every failure, in every run at all: an I/O error of its own, the deadline of its second wait, a spawned daemon that
   did not answer in time, or a second look at the lock that found it gone or removed it as stale.
   */
  lemma WhyItFailed(specs: seq<LaunchSpec>, actions: seq<Action>, i: nat) returns (n: nat)
    requires i < |specs| && Run(ColdStart(specs), actions).Some?
    requires var w := Run(ColdStart(specs), actions).value; |w.procs| == |specs| && w.procs[i].pc.Failed?
    ensures n < |actions| && Run(ColdStart(specs), actions[..n]).Some?
    ensures Fails(Run(ColdStart(specs), actions[..n]).value, actions[n], i)
  {
    n := FailingStep(ColdStart(specs), actions, i);
  }
}
