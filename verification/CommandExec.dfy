/**
 The table of running commands: sessions keyed by connection and process id, the tasks behind them, the controls that
 reach them, and the loop that runs one command to its exit code.
 */
module CommandExec {
  import opened Prelude
  import opened OutputCapture

  type Connection = nat

  datatype ProcessId = Generated(n: nat) | Client(name: string)

  datatype Key = Key(connection: Connection, process: ProcessId)

  /** A task is one spawned `run_command` or one sandboxed run; it keeps its number for good. */
  type Task = nat

  datatype Session = Active(task: Task) | UnsupportedWindowsSandbox

  datatype Control = Write(delta: seq<Byte>, closeStdin: bool) | Resize(rows: nat, cols: nat) | Terminate

  /**
   A message in a task's channel: a control that a client sent to a process id, or the terminate of a closing
   connection.
   */
  datatype Message =
    | FromClient(sender: Connection, name: string, control: Control)
    | Farewell(sender: Connection)

  /** The channel a control's lookup returned, and for whom. */
  datatype Handle = Handle(connection: Connection, name: string, task: Task)

  const DEFAULT_OUTPUT_BYTES_CAP: nat := 1024 * 1024

  datatype StartRequest = StartRequest(
    connection: Connection,
    processId: Option<string>,
    windowsSandbox: bool,
    tty: bool,
    streamStdin: bool,
    streamOutput: bool,
    cap: Option<nat>,
    command: seq<string>
  )

  datatype ExecError =
    | ProcessIdRequired
    | StreamingUnsupported
    | CustomCapUnsupported
    | EmptyCommand
    | DuplicateProcessId
    | NoActiveCommand
    | UnsupportedForSandbox
    | NoLongerRunning
    | StdinNotStreamed
    | StdinClosed
    | ResizeFailed

  predicate Interactive(r: StartRequest) {
    r.tty || r.streamStdin || r.streamOutput
  }

  /** Why a start is refused, the first reason first. */
  function Refusal(r: StartRequest, taken: bool): Option<ExecError> {
    if r.processId.None? && Interactive(r) then Some(ProcessIdRequired)
    else if r.windowsSandbox then
      if Interactive(r) then Some(StreamingUnsupported)
      else if r.cap != Some(DEFAULT_OUTPUT_BYTES_CAP) then Some(CustomCapUnsupported)
      else if r.processId.Some? && taken then Some(DuplicateProcessId)
      else None
    else if r.command == [] then Some(EmptyCommand)
    else if taken then Some(DuplicateProcessId)
    else None
  }

  // The table and its steps.

  /** A task runs a command under control of its session, or in the sandbox, listed in the table or not. */
  datatype Kind = Controlled(streamStdin: bool) | Sandboxed | Unlisted

  datatype Info = Info(key: Key, kind: Kind)

  /**
   `tasks` are all ever started, `inbox` all they were ever sent, `handles` the channels clients hold, and `leaving` the
   tasks that a closing connection still has to tell.
   */
  datatype Table = Table(
    sessions: map<Key, Session>,
    nextGenerated: nat,
    nextTask: Task,
    tasks: map<Task, Info>,
    alive: set<Task>,
    inbox: map<Task, seq<Message>>,
    handles: set<Handle>,
    leaving: map<Task, Connection>,
    closed: set<Connection>
  )

  const EMPTY := Table(map[], 1, 0, map[], {}, map[], {}, map[], {})

  function KindOf(r: StartRequest): Kind {
    if !r.windowsSandbox then Controlled(r.tty || r.streamStdin)
    else if r.processId.Some? then Sandboxed
    else Unlisted
  }

  function SessionOf(t: Task, kind: Kind): Session {
    if kind.Controlled? then Active(t) else UnsupportedWindowsSandbox
  }

  /** The next task starts, with a session unless it stays out of the table. */
  function Registered(w: Table, info: Info): Table {
    w.(nextTask := w.nextTask + 1,
       tasks := w.tasks[w.nextTask := info],
       alive := w.alive + {w.nextTask},
       inbox := w.inbox[w.nextTask := []],
       sessions := if info.kind.Unlisted? then w.sessions else w.sessions[info.key := SessionOf(w.nextTask, info.kind)])
  }

  function KeyFor(w: Table, r: StartRequest): Key {
    Key(r.connection, if r.processId.Some? then Client(r.processId.value) else Generated(w.nextGenerated))
  }

  /** The id is drawn even when the start is refused later on. */
  function WithIdDrawn(w: Table, r: StartRequest): Table {
    if r.processId.None? && !Interactive(r) then w.(nextGenerated := w.nextGenerated + 1) else w
  }

  function Started(w: Table, r: StartRequest): Table {
    if Refusal(r, KeyFor(w, r) in w.sessions).Some? then WithIdDrawn(w, r)
    else Registered(WithIdDrawn(w, r), Info(KeyFor(w, r), KindOf(r)))
  }

  /** A task is done, or could not be spawned: it removes whatever session its key has. */
  function Finished(w: Table, t: Task): Table
    requires t in w.tasks
  {
    w.(alive := w.alive - {t}, sessions := w.sessions - {w.tasks[t].key})
  }

  /** A send on a task's control channel, whose receiver is gone once the task is done. */
  function Delivered(w: Table, t: Task, m: Message): Table
    requires t in w.inbox
  {
    if t in w.alive then w.(inbox := w.inbox[t := w.inbox[t] + [m]]) else w
  }

  /** The session that a client's control looks up. */
  function Find(w: Table, connection: Connection, name: string): Result<Task, ExecError> {
    var key := Key(connection, Client(name));
    if key !in w.sessions then Err(NoActiveCommand)
    else
      match w.sessions[key]
      case Active(t) => Ok(t)
      case UnsupportedWindowsSandbox => Err(UnsupportedForSandbox)
  }

  /** A client keeps the channel that its lookup returned. */
  function LookedUp(w: Table, connection: Connection, name: string): Table {
    match Find(w, connection, name)
    case Ok(t) => w.(handles := w.handles + {Handle(connection, name, t)})
    case Err(_) => w
  }

  /** The tasks behind the active sessions of a connection. */
  function TasksOf(w: Table, connection: Connection): set<Task> {
    set k | k in w.sessions && k.connection == connection && w.sessions[k].Active? :: w.sessions[k].task
  }

  /** The first half of `connection_closed`, under the lock. */
  function Removed(w: Table, connection: Connection): Table {
    w.(sessions := map k | k in w.sessions && k.connection != connection :: w.sessions[k],
       leaving := w.leaving + map t | t in TasksOf(w, connection) :: connection,
       closed := w.closed + {connection})
  }

  /** The second half, once for each task that was active. */
  function Told(w: Table, t: Task): Table
    requires t in w.leaving && t in w.inbox
  {
    Delivered(w, t, Farewell(w.leaving[t])).(leaving := w.leaving - {t})
  }

  // Runs.

  /** A control is a lookup, and then a send on the channel it returned, at any later time. */
  datatype Action =
    | Start(r: StartRequest)
    | Finish(t: Task)
    | Look(connection: Connection, name: string)
    | Send(handle: Handle, control: Control)
    | Close(connection: Connection)
    | Tell(t: Task)

  function Step(w: Table, a: Action): Option<Table> {
    match a
    case Start(r) => Some(Started(w, r))
    case Finish(t) => if t in w.alive && t in w.tasks then Some(Finished(w, t)) else None
    case Look(connection, name) => Some(LookedUp(w, connection, name))
    case Send(h, control) =>
      if h in w.handles && h.task in w.inbox then Some(Delivered(w, h.task, FromClient(h.connection, h.name, control)))
      else None
    case Close(connection) => Some(Removed(w, connection))
    case Tell(t) => if t in w.leaving && t in w.inbox then Some(Told(w, t)) else None
  }

  /** A start on a connection that has been closed. */
  predicate LateStart(w: Table, a: Action) {
    a.Start? && a.r.connection in w.closed
  }

  function Run(w: Table, actions: seq<Action>): Option<Table>
    decreases |actions|
  {
    if actions == [] then Some(w)
    else
      match Step(w, actions[0])
      case Some(next) => Run(next, actions[1..])
      case None => None
  }

  predicate NoLateStart(w: Table, actions: seq<Action>)
    decreases |actions|
  {
    if actions == [] then true
    else
      var next := Step(w, actions[0]);
      !LateStart(w, actions[0]) && (next.Some? ==> NoLateStart(next.value, actions[1..]))
  }

  // What every run keeps.

  predicate Drawn(id: ProcessId, next: nat) {
    id.Generated? ==> 1 <= id.n < next
  }

  /** A control names the task's own key; a farewell comes from its connection. */
  predicate Proper(info: Info, m: Message) {
    match m
    case FromClient(sender, name, _) => info.key == Key(sender, Client(name))
    case Farewell(sender) => info.key.connection == sender
  }

  /** Every task has a key and an inbox. */
  ghost predicate Keyed(w: Table) {
    w.alive <= w.tasks.Keys && w.inbox.Keys == w.tasks.Keys
  }

  /** Generated ids are drawn once, and tasks numbered in turn. */
  ghost predicate Numbered(w: Table) {
    && w.nextGenerated >= 1
    && (forall t | t in w.tasks :: t < w.nextTask && Drawn(w.tasks[t].key.process, w.nextGenerated))
    && (forall t | t in w.tasks && w.tasks[t].kind.Unlisted? :: w.tasks[t].key.process.Generated?)
    && (forall k | k in w.sessions :: Drawn(k.process, w.nextGenerated))
  }

  predicate ControlledUnder(info: Info, key: Key) {
    info.key == key && info.kind.Controlled?
  }

  /** Sessions, handles and farewells still owed name their tasks' keys. */
  ghost predicate Matching(w: Table) {
    && (forall k | k in w.sessions && w.sessions[k].Active? ::
          w.sessions[k].task in w.tasks && ControlledUnder(w.tasks[w.sessions[k].task], k))
    && (forall h | h in w.handles ::
          h.task in w.tasks && ControlledUnder(w.tasks[h.task], Key(h.connection, Client(h.name))))
    && (forall t | t in w.leaving :: t in w.tasks && w.tasks[t].key.connection == w.leaving[t])
  }

  ghost predicate MailProper(w: Table)
    requires Keyed(w)
  {
    forall t | t in w.inbox :: forall m | m in w.inbox[t] :: Proper(w.tasks[t], m)
  }

  /** What holds whatever happens: the table agrees with the tasks, and so every message is proper. */
  ghost predicate Valid(w: Table) {
    Keyed(w) && Numbered(w) && Matching(w) && MailProper(w)
  }

  lemma DrawnValid(w: Table, r: StartRequest)
    requires Valid(w)
    ensures Valid(WithIdDrawn(w, r))
  {
  }

  lemma RegisteredNumbered(w: Table, info: Info)
    requires Numbered(w) && Drawn(info.key.process, w.nextGenerated)
    requires info.kind.Unlisted? ==> info.key.process.Generated?
    ensures Numbered(Registered(w, info))
  {
  }

  lemma RegisteredMatching(w: Table, info: Info)
    requires Matching(w) && w.nextTask !in w.tasks
    ensures Matching(Registered(w, info))
  {
  }

  lemma RegisteredMail(w: Table, info: Info)
    requires Keyed(w) && MailProper(w) && w.nextTask !in w.tasks
    ensures Keyed(Registered(w, info)) && MailProper(Registered(w, info))
  {
  }

  lemma RegisteredValid(w: Table, info: Info)
    requires Valid(w) && Drawn(info.key.process, w.nextGenerated)
    requires info.kind.Unlisted? ==> info.key.process.Generated?
    ensures Valid(Registered(w, info))
  {
    RegisteredNumbered(w, info);
    RegisteredMatching(w, info);
    RegisteredMail(w, info);
  }

  lemma StartedValid(w: Table, r: StartRequest)
    requires Valid(w)
    ensures Valid(Started(w, r))
  {
    DrawnValid(w, r);
    if Refusal(r, KeyFor(w, r) in w.sessions).None? {
      RegisteredValid(WithIdDrawn(w, r), Info(KeyFor(w, r), KindOf(r)));
    }
  }

  lemma DeliveredValid(w: Table, t: Task, m: Message)
    requires Valid(w) && t in w.tasks && Proper(w.tasks[t], m)
    ensures Valid(Delivered(w, t, m))
  {
  }

  lemma LookedUpValid(w: Table, connection: Connection, name: string)
    requires Valid(w)
    ensures Valid(LookedUp(w, connection, name))
  {
  }

  lemma RemovedValid(w: Table, connection: Connection)
    requires Valid(w)
    ensures Valid(Removed(w, connection))
  {
  }

  lemma StepValid(w: Table, a: Action)
    requires Valid(w) && Step(w, a).Some?
    ensures Valid(Step(w, a).value)
  {
    match a
    case Start(r) => StartedValid(w, r);
    case Finish(t) =>
    case Look(connection, name) => LookedUpValid(w, connection, name);
    case Send(h, control) => DeliveredValid(w, h.task, FromClient(h.connection, h.name, control));
    case Close(connection) => RemovedValid(w, connection);
    case Tell(t) => DeliveredValid(w, t, Farewell(w.leaving[t]));
  }

  function Farewells(messages: seq<Message>): nat {
    if messages == [] then 0
    else Farewells(messages[..|messages| - 1]) + if messages[|messages| - 1].Farewell? then 1 else 0
  }

  lemma FarewellsOneMore(messages: seq<Message>, m: Message)
    ensures Farewells(messages + [m]) == Farewells(messages) + if m.Farewell? then 1 else 0
  {
    assert (messages + [m])[..|messages|] == messages;
  }

  /** The terminates that closing connections have sent a task or still have to. */
  function Terminates(w: Table, t: Task): nat
    requires t in w.inbox
  {
    Farewells(w.inbox[t]) + if t in w.leaving then 1 else 0
  }

  predicate Listed(w: Table, t: Task)
    requires t in w.tasks
  {
    w.tasks[t].key in w.sessions && w.sessions[w.tasks[t].key] == SessionOf(t, w.tasks[t].kind)
  }

  predicate Backs(w: Table, t: Task, k: Key) {
    t in w.alive && t in w.tasks && w.tasks[t].key == k && !w.tasks[t].kind.Unlisted?
  }

  /** What one unfinished task can count on. */
  predicate Settled(w: Table, t: Task)
    requires t in w.tasks && t in w.inbox
  {
    if w.tasks[t].key.connection !in w.closed then
      Terminates(w, t) == 0 && (!w.tasks[t].kind.Unlisted? ==> Listed(w, t))
    else Terminates(w, t) == if w.tasks[t].kind.Controlled? then 1 else 0
  }

  /** Unfinished tasks have different keys. */
  ghost predicate DistinctKeys(w: Table)
    requires Keyed(w)
  {
    forall s, t | s in w.alive && t in w.alive && w.tasks[s].key == w.tasks[t].key :: s == t
  }

  ghost predicate AllSettled(w: Table)
    requires Keyed(w)
  {
    forall t | t in w.alive :: Settled(w, t)
  }

  ghost predicate ToldOnce(w: Table)
    requires Keyed(w)
  {
    forall t | t in w.tasks :: Terminates(w, t) <= 1
  }

  ghost predicate Backed(w: Table, k: Key) {
    exists t :: Backs(w, t, k)
  }

  ghost predicate TableBacked(w: Table) {
    forall k | k in w.sessions :: k.connection !in w.closed && Backed(w, k)
  }

  /**
   What holds while nothing starts on a closed connection: unfinished tasks have different keys; the table lists exactly
   the unfinished tasks of open connections, each with its own kind of session; and closing tells each active one once.
   */
  ghost predicate Sound(w: Table) {
    Keyed(w) && DistinctKeys(w) && AllSettled(w) && ToldOnce(w) && TableBacked(w)
  }

  ghost predicate Safe(w: Table) {
    Valid(w) && Sound(w)
  }

  /** A key the table does not hold belongs to no unfinished task, unless it is the key of a closed connection. */
  lemma KeyFree(w: Table, r: StartRequest)
    requires Safe(w) && r.connection !in w.closed && KeyFor(w, r) !in w.sessions
    ensures forall t | t in w.alive :: w.tasks[t].key != KeyFor(w, r)
  {
    forall t | t in w.alive
      ensures w.tasks[t].key != KeyFor(w, r)
    {
      assert Settled(w, t);
      assert Drawn(w.tasks[t].key.process, w.nextGenerated);
    }
  }

  lemma FreshKey(w: Table, r: StartRequest)
    requires Safe(w) && r.connection !in w.closed && Refusal(r, KeyFor(w, r) in w.sessions).None?
    ensures KeyFor(w, r) !in w.sessions && forall t | t in w.alive :: w.tasks[t].key != KeyFor(w, r)
  {
    if r.processId.None? { assert KeyFor(w, r) in w.sessions ==> Drawn(KeyFor(w, r).process, w.nextGenerated); }
    KeyFree(w, r);
  }

  /** The next task is new. */
  predicate FreshTask(w: Table) {
    w.nextTask !in w.tasks && w.nextTask !in w.leaving
  }

  lemma RegisteredKeeps(w: Table, info: Info, t: Task)
    requires Keyed(w) && FreshTask(w) && t in w.alive && Settled(w, t) && w.tasks[t].key != info.key
    ensures t in Registered(w, info).tasks && t in Registered(w, info).inbox && Settled(Registered(w, info), t)
  {
    assert t != w.nextTask;
  }

  lemma RegisteredNew(w: Table, info: Info)
    requires FreshTask(w) && info.key.connection !in w.closed
    ensures Settled(Registered(w, info), w.nextTask) && Terminates(Registered(w, info), w.nextTask) == 0
  {
  }

  lemma RegisteredSettled(w: Table, info: Info)
    requires Sound(w) && FreshTask(w) && info.key.connection !in w.closed
    requires forall t | t in w.alive :: w.tasks[t].key != info.key
    ensures Keyed(Registered(w, info)) && AllSettled(Registered(w, info)) && ToldOnce(Registered(w, info))
  {
    var next := Registered(w, info);
    RegisteredNew(w, info);
    forall t | t in w.alive
      ensures Settled(next, t)
    {
      RegisteredKeeps(w, info, t);
    }
    forall t | t in w.tasks
      ensures Terminates(next, t) <= 1
    {
      assert t != w.nextTask;
    }
  }

  lemma RegisteredBacked(w: Table, info: Info)
    requires Sound(w) && FreshTask(w) && info.key.connection !in w.closed && info.key !in w.sessions
    ensures TableBacked(Registered(w, info))
  {
    var next := Registered(w, info);
    forall k | k in next.sessions
      ensures k.connection !in w.closed && Backed(next, k)
    {
      if k in w.sessions {
        var s :| Backs(w, s, k);
        assert Backs(next, s, k);
      } else {
        assert Backs(next, w.nextTask, k);
      }
    }
  }

  lemma RegisteredSound(w: Table, info: Info)
    requires Sound(w) && FreshTask(w) && info.key.connection !in w.closed
    requires info.key !in w.sessions && forall t | t in w.alive :: w.tasks[t].key != info.key
    ensures Sound(Registered(w, info))
  {
    RegisteredSettled(w, info);
    RegisteredBacked(w, info);
  }

  /** A step that leaves the sessions, the tasks and their terminates alone. */
  lemma SameSessionsSound(w: Table, next: Table)
    requires Sound(w) && Keyed(next)
    requires next.sessions == w.sessions && next.tasks == w.tasks && next.alive == w.alive && next.closed == w.closed
    requires forall t | t in w.alive :: Terminates(next, t) == Terminates(w, t)
    requires forall t | t in w.tasks :: Terminates(next, t) <= Terminates(w, t)
    ensures Sound(next)
  {
    forall t | t in next.alive
      ensures Settled(next, t)
    {
      assert Settled(w, t);
    }
    forall k | k in next.sessions
      ensures k.connection !in w.closed && Backed(next, k)
    {
      var s :| Backs(w, s, k);
      assert Backs(next, s, k);
    }
  }

  lemma NextGeneratedSound(w: Table, next: nat)
    requires Sound(w)
    ensures Sound(w.(nextGenerated := next))
  {
    SameSessionsSound(w, w.(nextGenerated := next));
  }

  lemma HandlesSound(w: Table, handles: set<Handle>)
    requires Sound(w)
    ensures Sound(w.(handles := handles))
  {
    SameSessionsSound(w, w.(handles := handles));
  }

  lemma DrawnSound(w: Table, r: StartRequest)
    requires Sound(w)
    ensures Sound(WithIdDrawn(w, r))
  {
    NextGeneratedSound(w, w.nextGenerated + 1);
  }

  lemma ValidFresh(w: Table, r: StartRequest)
    requires Valid(w)
    ensures FreshTask(WithIdDrawn(w, r))
  {
  }

  lemma StartedSound(w: Table, r: StartRequest)
    requires Safe(w) && r.connection !in w.closed
    ensures Sound(Started(w, r))
  {
    DrawnSound(w, r);
    if Refusal(r, KeyFor(w, r) in w.sessions).None? {
      var drawn, info := WithIdDrawn(w, r), Info(KeyFor(w, r), KindOf(r));
      FreshKey(w, r);
      ValidFresh(w, r);
      assert drawn == w.(nextGenerated := drawn.nextGenerated);
      RegisteredSound(drawn, info);
    }
  }

  lemma FinishedBacked(w: Table, t: Task)
    requires Sound(w) && t in w.alive
    ensures TableBacked(Finished(w, t))
  {
    var next := Finished(w, t);
    forall k | k in next.sessions
      ensures k.connection !in w.closed && Backed(next, k)
    {
      var s :| Backs(w, s, k);
      assert Backs(next, s, k);
    }
  }

  lemma FinishedSound(w: Table, t: Task)
    requires Sound(w) && t in w.alive
    ensures Sound(Finished(w, t))
  {
    var next := Finished(w, t);
    FinishedBacked(w, t);
    forall s | s in w.tasks
      ensures Terminates(next, s) == Terminates(w, s)
    {
    }
    forall s | s in next.alive
      ensures Settled(next, s)
    {
      assert Settled(w, s);
      assert w.tasks[s].key != w.tasks[t].key;
    }
  }

  lemma LookedUpSound(w: Table, connection: Connection, name: string)
    requires Sound(w)
    ensures Sound(LookedUp(w, connection, name))
  {
    match Find(w, connection, name)
    case Ok(t) => HandlesSound(w, w.handles + {Handle(connection, name, t)});
    case Err(_) =>
  }

  /** The terminates a task has been sent or is still owed, by the mail alone. */
  function Owed(inbox: map<Task, seq<Message>>, leaving: map<Task, Connection>, t: Task): nat
    requires t in inbox
  {
    Farewells(inbox[t]) + if t in leaving then 1 else 0
  }

  lemma MailSound(w: Table, inbox: map<Task, seq<Message>>, leaving: map<Task, Connection>)
    requires Sound(w) && inbox.Keys == w.tasks.Keys
    requires forall t | t in w.alive :: Owed(inbox, leaving, t) == Terminates(w, t)
    requires forall t | t in w.tasks :: Owed(inbox, leaving, t) <= Terminates(w, t)
    ensures Sound(w.(inbox := inbox, leaving := leaving))
  {
    var next := w.(inbox := inbox, leaving := leaving);
    assert forall t | t in w.tasks :: Terminates(next, t) == Owed(inbox, leaving, t);
    SameSessionsSound(w, next);
  }

  lemma SentSound(w: Table, t: Task, m: Message)
    requires Sound(w) && t in w.tasks && m.FromClient?
    ensures Sound(Delivered(w, t, m))
  {
    if t in w.alive {
      var inbox := w.inbox[t := w.inbox[t] + [m]];
      FarewellsOneMore(w.inbox[t], m);
      MailSound(w, inbox, w.leaving);
      assert Delivered(w, t, m) == w.(inbox := inbox, leaving := w.leaving);
    }
  }

  lemma ToldSound(w: Table, t: Task)
    requires Sound(w) && t in w.leaving && t in w.tasks
    ensures Sound(Told(w, t))
  {
    var leaving, m := w.leaving - {t}, Farewell(w.leaving[t]);
    if t in w.alive {
      var inbox := w.inbox[t := w.inbox[t] + [m]];
      FarewellsOneMore(w.inbox[t], m);
      MailSound(w, inbox, leaving);
      assert Told(w, t) == w.(inbox := inbox, leaving := leaving);
    } else {
      MailSound(w, w.inbox, leaving);
      assert Told(w, t) == w.(inbox := w.inbox, leaving := leaving);
    }
  }

  /** A closing connection still has to tell exactly the tasks of its active sessions, which are controlled and run. */
  lemma RemovedTerminates(w: Table, connection: Connection, t: Task)
    requires Safe(w) && t in w.tasks
    ensures t in Removed(w, connection).inbox
    ensures Terminates(Removed(w, connection), t) == Terminates(w, t) + if t in TasksOf(w, connection) then 1 else 0
    ensures t in TasksOf(w, connection) ==>
      t in w.alive && w.tasks[t].kind.Controlled? && w.tasks[t].key.connection == connection
    ensures connection !in w.closed && t in w.alive && w.tasks[t].kind.Controlled? ==>
      (w.tasks[t].key.connection == connection <==> t in TasksOf(w, connection))
  {
    if t in TasksOf(w, connection) {
      var s :| Backs(w, s, w.tasks[t].key);
      assert Settled(w, s);
    }
    if t in w.alive {
      assert Settled(w, t);
      assert Listed(w, t) && w.tasks[t].kind.Controlled? ==> w.sessions[w.tasks[t].key] == Active(t);
    }
  }

  lemma RemovedBacked(w: Table, connection: Connection)
    requires Sound(w)
    ensures TableBacked(Removed(w, connection))
  {
    var next := Removed(w, connection);
    forall k | k in next.sessions
      ensures k.connection !in next.closed && Backed(next, k)
    {
      var s :| Backs(w, s, k);
      assert Backs(next, s, k);
    }
  }

  lemma RemovedSettled(w: Table, connection: Connection, t: Task)
    requires Safe(w) && t in w.tasks
    ensures t in Removed(w, connection).inbox && Terminates(Removed(w, connection), t) <= 1
    ensures t in w.alive ==> Settled(Removed(w, connection), t)
  {
    RemovedTerminates(w, connection, t);
    assert t in w.alive ==> Settled(w, t);
  }

  lemma RemovedSound(w: Table, connection: Connection)
    requires Safe(w)
    ensures Sound(Removed(w, connection))
  {
    var next := Removed(w, connection);
    RemovedBacked(w, connection);
    forall t | t in w.tasks
      ensures Terminates(next, t) <= 1 && (t in w.alive ==> Settled(next, t))
    {
      RemovedSettled(w, connection, t);
    }
  }

  lemma StepSound(w: Table, a: Action)
    requires Safe(w) && Step(w, a).Some? && !LateStart(w, a)
    ensures Sound(Step(w, a).value)
  {
    match a
    case Start(r) => StartedSound(w, r);
    case Finish(t) => FinishedSound(w, t);
    case Look(connection, name) => LookedUpSound(w, connection, name);
    case Send(h, control) => SentSound(w, h.task, FromClient(h.connection, h.name, control));
    case Close(connection) => RemovedSound(w, connection);
    case Tell(t) => ToldSound(w, t);
  }

  /** Any step keeps a valid table valid, and one that is no late start keeps a safe table safe. */
  lemma StepKeeps(w: Table, a: Action)
    requires Valid(w) && Step(w, a).Some?
    ensures Valid(Step(w, a).value)
    ensures Safe(w) && !LateStart(w, a) ==> Safe(Step(w, a).value)
  {
    StepValid(w, a);
    if Safe(w) && !LateStart(w, a) { StepSound(w, a); }
  }

  lemma {:induction false} RunValid(w: Table, actions: seq<Action>)
    requires Valid(w) && Run(w, actions).Some?
    ensures Valid(Run(w, actions).value)
    decreases |actions|
  {
    if actions == [] {
    } else {
      StepValid(w, actions[0]);
      RunValid(Step(w, actions[0]).value, actions[1..]);
    }
  }

  lemma {:induction false} RunSafe(w: Table, actions: seq<Action>)
    requires Safe(w) && NoLateStart(w, actions) && Run(w, actions).Some?
    ensures Safe(Run(w, actions).value)
    decreases |actions|
  {
    if actions == [] {
    } else {
      StepKeeps(w, actions[0]);
      RunSafe(Step(w, actions[0]).value, actions[1..]);
    }
  }

  /**
   In every run, late starts or not: a control that arrives at a task was sent by the task's own connection to the id
   the task was started under, however long after its lookup; so a task with a generated id hears nothing but the
   closing of its connection.
   */
  lemma ControlStaysHome(actions: seq<Action>, connection: Connection, name: string, t: Task, m: Message)
    requires Run(EMPTY, actions).Some?
    ensures var w := Run(EMPTY, actions).value;
      && (Find(w, connection, name) == Ok(t) ==>
            t in w.tasks && ControlledUnder(w.tasks[t], Key(connection, Client(name))))
      && (t in w.inbox && t in w.tasks && m in w.inbox[t] ==>
            && m.sender == w.tasks[t].key.connection
            && (m.FromClient? ==> w.tasks[t].key.process == Client(m.name))
            && (w.tasks[t].key.process.Generated? ==> m.Farewell?))
  {
    RunValid(EMPTY, actions);
  }

  /**
   In every run without late starts: no two unfinished tasks share a connection and process id, and a client finds a
   session exactly while its connection is open and a task of that id is unfinished.
   */
  lemma OneLiveSession(actions: seq<Action>, k: Key, s: Task, t: Task)
    requires NoLateStart(EMPTY, actions) && Run(EMPTY, actions).Some?
    ensures var w := Run(EMPTY, actions).value;
      && (s in w.alive && t in w.alive && s in w.tasks && t in w.tasks ==>
            (w.tasks[s].key == k && w.tasks[t].key == k ==> s == t))
      && (k in w.sessions <==> k.connection !in w.closed && Backed(w, k))
      && (k in w.sessions && w.sessions[k].Active? ==> w.sessions[k].task in w.alive)
  {
    RunSafe(EMPTY, actions);
    var w := Run(EMPTY, actions).value;
    if Backed(w, k) {
      var u :| Backs(w, u, k);
      assert Settled(w, u);
    }
  }

  /** Closing a connection tells each of its active tasks to terminate exactly once, and no task twice. */
  lemma ClosingTellsOnce(actions: seq<Action>, t: Task)
    requires NoLateStart(EMPTY, actions) && Run(EMPTY, actions).Some?
    requires t in Run(EMPTY, actions).value.tasks
    ensures var w := Run(EMPTY, actions).value;
      && t in w.inbox && Farewells(w.inbox[t]) <= 1
      && (t in w.alive && t !in w.leaving ==>
            (Farewells(w.inbox[t]) == 1 <==> w.tasks[t].kind.Controlled? && w.tasks[t].key.connection in w.closed))
  {
    RunSafe(EMPTY, actions);
    var w := Run(EMPTY, actions).value;
    assert t in w.alive ==> Settled(w, t);
  }

  // Exactly when tasks have different keys.

  /** An accepted start on a closed connection under a key that an unfinished task still holds. */
  ghost predicate Reuses(w: Table, a: Action) {
    && LateStart(w, a) && Refusal(a.r, KeyFor(w, a.r) in w.sessions).None?
    && exists t :: t in w.alive && t in w.tasks && w.tasks[t].key == KeyFor(w, a.r)
  }

  ghost predicate NeverReuses(w: Table, actions: seq<Action>)
    decreases |actions|
  {
    if actions == [] then true
    else
      var next := Step(w, actions[0]);
      next.Some? ==> !Reuses(w, actions[0]) && NeverReuses(next.value, actions[1..])
  }

  /** After every step of a run, unfinished tasks have different keys. */
  ghost predicate AlwaysDistinct(w: Table, actions: seq<Action>)
    decreases |actions|
  {
    && Keyed(w) && DistinctKeys(w)
    && if actions == [] then true
       else
         var next := Step(w, actions[0]);
         next.Some? ==> AlwaysDistinct(next.value, actions[1..])
  }

  /** An unfinished task of an open connection holds its key in the table, unless it stays out of it. */
  ghost predicate OpenListed(w: Table)
    requires Keyed(w)
  {
    forall t | t in w.alive && !w.tasks[t].kind.Unlisted? && w.tasks[t].key.connection !in w.closed ::
      w.tasks[t].key in w.sessions
  }

  ghost predicate Apart(w: Table) {
    Keyed(w) && DistinctKeys(w) && OpenListed(w)
  }

  lemma RegisteredApart(w: Table, info: Info)
    requires Apart(w) && FreshTask(w) && forall t | t in w.alive :: w.tasks[t].key != info.key
    ensures Apart(Registered(w, info))
  {
  }

  /** An open connection gives no key away twice, even when connections have been misused. */
  lemma OpenKeyFree(w: Table, r: StartRequest, t: Task)
    requires Valid(w) && Apart(w) && r.connection !in w.closed
    requires Refusal(r, KeyFor(w, r) in w.sessions).None? && t in w.alive
    ensures w.tasks[t].key != KeyFor(w, r)
  {
    assert Drawn(w.tasks[t].key.process, w.nextGenerated);
    assert KeyFor(w, r) in w.sessions ==> Drawn(KeyFor(w, r).process, w.nextGenerated);
  }

  lemma StartedApart(w: Table, r: StartRequest)
    requires Valid(w) && Apart(w) && !Reuses(w, Start(r))
    ensures Apart(Started(w, r))
  {
    var drawn := WithIdDrawn(w, r);
    assert drawn.tasks == w.tasks && drawn.alive == w.alive && drawn.sessions == w.sessions && drawn.closed == w.closed;
    if Refusal(r, KeyFor(w, r) in w.sessions).None? {
      forall t | t in w.alive
        ensures w.tasks[t].key != KeyFor(w, r)
      {
        if r.connection !in w.closed { OpenKeyFree(w, r, t); }
      }
      ValidFresh(w, r);
      RegisteredApart(drawn, Info(KeyFor(w, r), KindOf(r)));
    }
  }

  lemma FinishedApart(w: Table, t: Task)
    requires Apart(w) && t in w.alive
    ensures Apart(Finished(w, t))
  {
    assert forall s | s in w.alive && s != t :: w.tasks[s].key != w.tasks[t].key;
  }

  lemma StepApart(w: Table, a: Action)
    requires Valid(w) && Apart(w) && Step(w, a).Some? && !Reuses(w, a)
    ensures Apart(Step(w, a).value)
  {
    match a
    case Start(r) => StartedApart(w, r);
    case Finish(t) => FinishedApart(w, t);
    case _ =>
  }

  /** A reuse puts two unfinished tasks under one key. */
  lemma ReuseClashes(w: Table, a: Action)
    requires Valid(w) && Reuses(w, a)
    ensures Keyed(Step(w, a).value) && !DistinctKeys(Step(w, a).value)
  {
    var next := Step(w, a).value;
    var t :| t in w.alive && t in w.tasks && w.tasks[t].key == KeyFor(w, a.r);
    StepValid(w, a);
    assert t in next.alive && w.nextTask in next.alive && t != w.nextTask;
    assert next.tasks[t].key == next.tasks[w.nextTask].key;
  }

  lemma {:induction false} DistinctIff(w: Table, actions: seq<Action>)
    requires Valid(w) && Apart(w)
    ensures AlwaysDistinct(w, actions) <==> NeverReuses(w, actions)
    decreases |actions|
  {
    if actions == [] || Step(w, actions[0]).None? {
    } else {
      var next := Step(w, actions[0]).value;
      StepValid(w, actions[0]);
      if Reuses(w, actions[0]) {
        ReuseClashes(w, actions[0]);
        assert !AlwaysDistinct(next, actions[1..]);
      } else {
        StepApart(w, actions[0]);
        DistinctIff(next, actions[1..]);
      }
    }
  }

  /**
   One live task per connection and process id, exactly: in a run, unfinished tasks have different keys after every step
   if and only if no start that is accepted on a closed connection reuses the key of an unfinished task.
   */
  lemma OneLiveTaskIff(actions: seq<Action>)
    ensures AlwaysDistinct(EMPTY, actions) <==> NeverReuses(EMPTY, actions)
  {
    DistinctIff(EMPTY, actions);
  }

  lemma RunOne(w: Table, a: Action, rest: seq<Action>)
    requires Step(w, a).Some?
    ensures Run(w, [a] + rest) == Run(Step(w, a).value, rest)
  {
    assert ([a] + rest)[1..] == rest;
  }

  lemma RunThree(p: Action, q: Action, r: Action, rest: seq<Action>, a: Table, b: Table, c: Table)
    requires Step(EMPTY, p) == Some(a) && Step(a, q) == Some(b) && Step(b, r) == Some(c)
    ensures Run(EMPTY, [p, q, r] + rest) == Run(c, rest)
  {
    RunOne(EMPTY, p, [q, r] + rest);
    RunOne(a, q, [r] + rest);
    RunOne(b, r, rest);
    assert [p, q, r] + rest == [p] + ([q, r] + rest) && [q, r] + rest == [q] + ([r] + rest);
  }

  function SharedStart(connection: Connection, name: string, command: string): StartRequest {
    StartRequest(connection, Some(name), false, false, false, false, None, [command])
  }

  /** The table after the same start twice, with a close in between. */
  lemma SharedKey(connection: Connection, name: string, command: string) returns (w: Table)
    ensures var r := SharedStart(connection, name, command);
      w == Started(Removed(Started(EMPTY, r), connection), r)
    ensures var key := Key(connection, Client(name));
      && w.alive == {0, 1} && w.tasks == map[0 := Info(key, Controlled(false)), 1 := Info(key, Controlled(false))]
      && w.sessions == map[key := Active(1)]
  {
    var r := SharedStart(connection, name, command);
    var a := Started(EMPTY, r);
    var b := Removed(a, connection);
    assert b.sessions == map[];
    w := Started(b, r);
  }

  /**
   A run that reuses a key: two unfinished tasks share it, and when the first is done, the second loses its session.
   */
  lemma LateStartLosesSession(connection: Connection, name: string, command: string)
    ensures var start := Start(SharedStart(connection, name, command));
      var key := Key(connection, Client(name));
      var shared := Run(EMPTY, [start, Close(connection), start]);
      var end := Run(EMPTY, [start, Close(connection), start, Finish(0)]);
      && shared.Some? && shared.value.alive == {0, 1}
      && shared.value.tasks == map[0 := Info(key, Controlled(false)), 1 := Info(key, Controlled(false))]
      && end.Some? && end.value.alive == {1} && Find(end.value, connection, name) == Err(NoActiveCommand)
  {
    var r := SharedStart(connection, name, command);
    var start := Start(r);
    var a := Started(EMPTY, r);
    var b := Removed(a, connection);
    var c := SharedKey(connection, name, command);
    RunThree(start, Close(connection), start, [], a, b, c);
    assert [start, Close(connection), start] + [] == [start, Close(connection), start];
    RunThree(start, Close(connection), start, [Finish(0)], a, b, c);
    assert [start, Close(connection), start] + [Finish(0)] == [start, Close(connection), start, Finish(0)];
    RunOne(c, Finish(0), []);
    assert [Finish(0)] + [] == [Finish(0)];
  }

  // The manager.

  /** What is left of a farewell round after `told`: each told task that still runs has been told, and no other. */
  ghost predicate AllTold(w: Table, inbox: map<Task, seq<Message>>, told: set<Task>, connection: Connection) {
    && inbox.Keys == w.inbox.Keys == w.tasks.Keys
    && forall t | t in w.tasks ::
         inbox[t] == w.inbox[t] + if t in told && t in w.alive then [Farewell(connection)] else []
  }

  /** One terminate sent to a task of `w`, if it still runs. */
  function Sent(w: Table, inbox: map<Task, seq<Message>>, t: Task, connection: Connection): map<Task, seq<Message>>
    requires t in inbox
  {
    if t in w.alive then inbox[t := inbox[t] + [Farewell(connection)]] else inbox
  }

  lemma OneMoreTold(w: Table, inbox: map<Task, seq<Message>>, told: set<Task>, t: Task, connection: Connection)
    requires AllTold(w, inbox, told, connection) && t in w.tasks && t !in told
    ensures AllTold(w, Sent(w, inbox, t, connection), told + {t}, connection)
  {
  }

  lemma ToldTerminatesSame(w: Table, next: Table, t: Task, connection: Connection)
    requires AllTold(w, next.inbox, w.leaving.Keys, connection) && next.leaving == map[] && t in w.tasks
    ensures Terminates(next, t) <= Terminates(w, t) && (t in w.alive ==> Terminates(next, t) == Terminates(w, t))
  {
    FarewellsOneMore(w.inbox[t], Farewell(connection));
    assert w.inbox[t] + [] == w.inbox[t];
  }

  /** Telling everyone who has to be told, all at once, keeps what telling them one by one keeps. */
  lemma AllToldValid(w: Table, next: Table, connection: Connection)
    requires Valid(w) && AllTold(w, next.inbox, w.leaving.Keys, connection)
    requires forall t | t in w.leaving :: w.leaving[t] == connection
    requires next == w.(inbox := next.inbox, leaving := map[])
    ensures Valid(next)
  {
    forall t, m | t in next.inbox && m in next.inbox[t]
      ensures Proper(next.tasks[t], m)
    {
      assert m in w.inbox[t] ==> Proper(w.tasks[t], m);
    }
  }

  lemma AllToldSafe(w: Table, next: Table, connection: Connection)
    requires Safe(w) && AllTold(w, next.inbox, w.leaving.Keys, connection)
    requires forall t | t in w.leaving :: w.leaving[t] == connection
    requires next == w.(inbox := next.inbox, leaving := map[])
    ensures Safe(next)
  {
    AllToldValid(w, next, connection);
    forall t | t in w.tasks
      ensures Terminates(next, t) <= Terminates(w, t) && (t in w.alive ==> Terminates(next, t) == Terminates(w, t))
    {
      ToldTerminatesSame(w, next, t, connection);
    }
    SameSessionsSound(w, next);
  }

  /** The sessions just removed are those of tasks that are now owed a terminate. */
  lemma RemovedAreOwed(w: Table, connection: Connection)
    requires Valid(w) && w.leaving == map[]
    ensures var leaving := Removed(w, connection).leaving;
      leaving.Keys == TasksOf(w, connection) <= w.tasks.Keys && forall t | t in leaving :: leaving[t] == connection
    ensures w.inbox.Keys == w.tasks.Keys
  {
    forall t | t in TasksOf(w, connection)
      ensures t in w.tasks
    {
      var k :| k in w.sessions && k.connection == connection && w.sessions[k].Active? && w.sessions[k].task == t;
    }
  }

  /** `connection_closed` without another step in between: removal, and then everyone owed a terminate is told. */
  ghost predicate ClosedAt(w: Table, next: Table, connection: Connection) {
    && w.leaving == map[]
    && AllTold(Removed(w, connection), next.inbox, TasksOf(w, connection), connection)
    && next == Removed(w, connection).(inbox := next.inbox, leaving := map[])
  }

  lemma ClosingValid(w: Table, next: Table, connection: Connection)
    requires Valid(w) && ClosedAt(w, next, connection)
    ensures Valid(next)
  {
    RemovedAreOwed(w, connection);
    RemovedValid(w, connection);
    AllToldValid(Removed(w, connection), next, connection);
  }

  lemma ClosingSafe(w: Table, next: Table, connection: Connection)
    requires Safe(w) && ClosedAt(w, next, connection)
    ensures Safe(next)
  {
    RemovedAreOwed(w, connection);
    RemovedValid(w, connection);
    RemovedSound(w, connection);
    AllToldSafe(Removed(w, connection), next, connection);
  }

  /**
   What a control is answered: `handle_process_write`, `handle_process_resize`, and the terminate that cannot fail.
   */
  function AnswerTo(control: Control, streamStdin: bool, accepted: bool): (r: Result<(), ExecError>)
    ensures r == Err(StdinNotStreamed) <==> control.Write? && !streamStdin
    ensures r == Err(StdinClosed) <==> control.Write? && streamStdin && |control.delta| > 0 && !accepted
    ensures r == Err(ResizeFailed) <==> control.Resize? && !accepted
    ensures control.Terminate? || (accepted && streamStdin) ==> r == Ok(())
    ensures r.Err? ==> r.error in {StdinNotStreamed, StdinClosed, ResizeFailed}
  {
    match control
    case Write(delta, _) =>
      if !streamStdin then Err(StdinNotStreamed) else if delta != [] && !accepted then Err(StdinClosed) else Ok(())
    case Resize(_, _) => if accepted then Ok(()) else Err(ResizeFailed)
    case Terminate => Ok(())
  }

  /**
   What a client hears of a control. `fate` says whether the stdin of the process takes the write, or its terminal the
   resize; it is `None` when the task ends before it answers.
   */
  function Heard(w: Table, t: Task, control: Control, fate: Option<bool>): Result<(), ExecError>
    requires t in w.tasks && w.tasks[t].kind.Controlled?
  {
    if t in w.alive && fate.Some? then AnswerTo(control, w.tasks[t].kind.streamStdin, fate.value)
    else Err(NoLongerRunning)
  }

  class CommandExecManager {
    var sessions: map<Key, Session>
    var nextGenerated: nat
    var nextTask: Task
    var tasks: map<Task, Info>
    var alive: set<Task>
    var inbox: map<Task, seq<Message>>
    ghost var handles: set<Handle>
    ghost var leaving: map<Task, Connection>
    ghost var closed: set<Connection>

    ghost function View(): Table
      reads this
    {
      Table(sessions, nextGenerated, nextTask, tasks, alive, inbox, handles, leaving, closed)
    }

    constructor ()
      ensures View() == EMPTY && Safe(View())
    {
      sessions, nextGenerated, nextTask := map[], 1, 0;
      tasks, alive, inbox := map[], {}, map[];
      handles, leaving, closed := {}, map[], {};
    }

    /** The task runs from here on, on its own. */
    method Spawn(key: Key, kind: Kind) returns (t: Task)
      modifies this
      ensures t == old(nextTask) && View() == Registered(old(View()), Info(key, kind))
    {
      t := nextTask;
      nextTask := nextTask + 1;
      tasks, alive, inbox := tasks[t := Info(key, kind)], alive + {t}, inbox[t := []];
      if !kind.Unlisted? { sessions := sessions[key := SessionOf(t, kind)]; }
    }

    /**
     The branch of `start` for the Windows sandbox: nothing interactive, the default cap, and no session without an
     id.
     */
    method StartSandboxed(r: StartRequest, key: Key) returns (result: Result<Task, ExecError>)
      requires r.windowsSandbox && (r.processId.None? ==> !Interactive(r))
      modifies this
      ensures var refusal := Refusal(r, key in old(sessions));
        if refusal.Some? then result == Err(refusal.value) && View() == old(View())
        else result == Ok(old(nextTask)) && View() == Registered(old(View()), Info(key, KindOf(r)))
    {
      if Interactive(r) {
        return Err(StreamingUnsupported);
      }
      if r.cap != Some(DEFAULT_OUTPUT_BYTES_CAP) {
        return Err(CustomCapUnsupported);
      }
      if r.processId.Some? && key in sessions {
        return Err(DuplicateProcessId);
      }
      var t := Spawn(key, if r.processId.Some? then Sandboxed else Unlisted);
      result := Ok(t);
    }

    method StartControlled(r: StartRequest, key: Key) returns (result: Result<Task, ExecError>)
      requires !r.windowsSandbox && (r.processId.None? ==> !Interactive(r))
      modifies this
      ensures var refusal := Refusal(r, key in old(sessions));
        if refusal.Some? then result == Err(refusal.value) && View() == old(View())
        else result == Ok(old(nextTask)) && View() == Registered(old(View()), Info(key, KindOf(r)))
    {
      if r.command == [] {
        return Err(EmptyCommand);
      }
      if key in sessions {
        return Err(DuplicateProcessId);
      }
      var t := Spawn(key, Controlled(r.tty || r.streamStdin));
      result := Ok(t);
    }

    /** `start`, up to the point where the task runs. */
    method StartCommand(r: StartRequest) returns (result: Result<Task, ExecError>)
      modifies this
      ensures View() == Started(old(View()), r)
      ensures var refusal := Refusal(r, KeyFor(old(View()), r) in old(sessions));
        result == if refusal.Some? then Err(refusal.value) else Ok(old(nextTask))
      ensures nextGenerated
           == old(nextGenerated) + if r.processId.None? && result != Err(ProcessIdRequired) then 1 else 0
      ensures result == Err(ProcessIdRequired) <==> r.processId.None? && (r.tty || r.streamStdin || r.streamOutput)
      ensures result == Err(StreamingUnsupported) <==>
        r.processId.Some? && r.windowsSandbox && (r.tty || r.streamStdin || r.streamOutput)
      ensures result == Err(CustomCapUnsupported) <==>
        r.windowsSandbox && !(r.tty || r.streamStdin || r.streamOutput) && r.cap != Some(1024 * 1024)
      ensures result == Err(EmptyCommand) <==> result != Err(ProcessIdRequired) && !r.windowsSandbox && r.command == []
      ensures result.Err? ==>
        || result.error in {ProcessIdRequired, StreamingUnsupported, CustomCapUnsupported, EmptyCommand}
        || (result == Err(DuplicateProcessId) && KeyFor(old(View()), r) in old(sessions))
      ensures result.Ok? ==> result.value in tasks
      ensures result.Ok? && !r.windowsSandbox ==>
        var key := tasks[result.value].key;
        && tasks[result.value].kind == Controlled(r.tty || r.streamStdin)
        && key !in old(sessions) && sessions == old(sessions)[key := Active(result.value)]
      ensures result.Ok? && r.windowsSandbox && r.processId.Some? ==>
        var key := tasks[result.value].key;
        key !in old(sessions) && sessions == old(sessions)[key := UnsupportedWindowsSandbox]
      ensures result.Ok? && r.windowsSandbox && r.processId.None? ==> sessions == old(sessions)
      ensures result.Ok? ==>
        var key := tasks[result.value].key;
        && key.connection == r.connection
        && match r.processId
           case Some(name) => key.process == Client(name)
           case None => key.process == Generated(old(nextGenerated))
    {
      if r.processId.None? && Interactive(r) {
        return Err(ProcessIdRequired);
      }
      var key := Key(r.connection, if r.processId.Some? then Client(r.processId.value) else Generated(nextGenerated));
      if r.processId.None? { nextGenerated := nextGenerated + 1; }
      if r.windowsSandbox {
        result := StartSandboxed(r, key);
      } else {
        result := StartControlled(r, key);
      }
    }

    /** The last act of a task, or of a start whose process cannot be spawned. */
    method FinishCommand(t: Task)
      requires Valid(View()) && t in alive
      modifies `sessions, `alive
      ensures Valid(View()) && View() == Finished(old(View()), t)
      ensures old(Safe(View())) ==> Safe(View())
    {
      StepKeeps(View(), Finish(t));
      sessions := sessions - {tasks[t].key};
      alive := alive - {t};
    }

    method Deliver(t: Task, m: Message) returns (sent: bool)
      requires t in inbox
      modifies `inbox
      ensures View() == Delivered(old(View()), t, m) && sent == (t in alive)
    {
      sent := t in alive;
      if sent { inbox := inbox[t := inbox[t] + [m]]; }
    }

    /** The lookup of `send_control`, under the lock. */
    method FindSession(connection: Connection, name: string) returns (found: Result<Task, ExecError>)
      requires Valid(View())
      modifies `handles
      ensures Valid(View()) && (old(Safe(View())) ==> Safe(View()))
      ensures found == Find(old(View()), connection, name)
      ensures View() == LookedUp(old(View()), connection, name)
      ensures found == Err(NoActiveCommand) <==> Key(connection, Client(name)) !in old(sessions)
      ensures found == Err(UnsupportedForSandbox) <==>
        var key := Key(connection, Client(name)); key in old(sessions) && !old(sessions)[key].Active?
      ensures found.Err? ==> handles == old(handles)
    {
      StepKeeps(View(), Look(connection, name));
      var key := Key(connection, Client(name));
      if key !in sessions {
        return Err(NoActiveCommand);
      }
      match sessions[key] {
        case UnsupportedWindowsSandbox => found := Err(UnsupportedForSandbox);
        case Active(t) =>
          handles := handles + {Handle(connection, name, t)};
          found := Ok(t);
      }
    }

    /** The send of `send_control`, on the channel found, and the answer of the task. */
    method SendTo(h: Handle, control: Control, fate: Option<bool>) returns (result: Result<(), ExecError>)
      requires Valid(View()) && h in handles
      modifies `inbox
      ensures Valid(View()) && (old(Safe(View())) ==> Safe(View()))
      ensures h.task in old(inbox) && h.task in tasks && tasks[h.task].kind.Controlled?
      ensures View() == Delivered(old(View()), h.task, FromClient(h.connection, h.name, control))
      ensures result == Heard(View(), h.task, control, fate)
      ensures result == Err(NoLongerRunning) <==> h.task !in alive || fate.None?
      ensures inbox == if h.task !in alive then old(inbox)
                       else old(inbox)[h.task := old(inbox)[h.task] + [FromClient(h.connection, h.name, control)]]
    {
      var m := FromClient(h.connection, h.name, control);
      StepKeeps(View(), Send(h, control));
      var sent := Deliver(h.task, m);
      result := if sent && fate.Some? then AnswerTo(control, tasks[h.task].kind.streamStdin, fate.value)
                else Err(NoLongerRunning);
    }

    /** `send_control`, when nothing comes between the lookup and the send. */
    method SendControl(connection: Connection, name: string, control: Control, fate: Option<bool>)
      returns (result: Result<(), ExecError>)
      requires Valid(View())
      modifies `inbox, `handles
      ensures Valid(View()) && (old(Safe(View())) ==> Safe(View()))
      ensures match Find(old(View()), connection, name)
        case Err(error) => result == Err(error) && inbox == old(inbox)
        case Ok(t) =>
          && t in tasks && ControlledUnder(tasks[t], Key(connection, Client(name))) && t in old(inbox)
          && inbox == Delivered(old(View()), t, FromClient(connection, name, control)).inbox
          && result == Heard(View(), t, control, fate)
    {
      var found := FindSession(connection, name);
      match found {
        case Err(error) => result := Err(error);
        case Ok(t) => result := SendTo(Handle(connection, name, t), control, fate);
      }
    }

    /** The part of `connection_closed` under the lock. */
    method RemoveSessions(connection: Connection) returns (active: set<Task>)
      modifies `sessions, `closed, `leaving
      ensures View() == Removed(old(View()), connection)
      ensures active == TasksOf(old(View()), connection)
    {
      active := set k | k in sessions && k.connection == connection && sessions[k].Active? :: sessions[k].task;
      leaving := leaving + map t | t in active :: connection;
      sessions := map k | k in sessions && k.connection != connection :: sessions[k];
      closed := closed + {connection};
    }

    /** One more task is told. */
    method TellOne(t: Task, connection: Connection, ghost before: Table, ghost told: set<Task>)
      requires before.tasks == tasks && before.alive == alive && t in tasks && t !in told
      requires AllTold(before, inbox, told, connection)
      modifies `inbox
      ensures AllTold(before, inbox, told + {t}, connection)
    {
      OneMoreTold(before, inbox, told, t, connection);
      var _ := Deliver(t, Farewell(connection));
      assert inbox == Sent(before, old(inbox), t, connection);
    }

    /** One terminate to each of the tasks. */
    method TellAll(active: set<Task>, connection: Connection)
      requires leaving.Keys == active <= tasks.Keys && inbox.Keys == tasks.Keys
      modifies `inbox, `leaving
      ensures leaving == map[] && AllTold(old(View()), inbox, active, connection)
    {
      ghost var before := View();
      var rest := active;
      while rest != {}
        invariant rest <= active && AllTold(before, inbox, active - rest, connection)
        decreases |rest|
      {
        var t :| t in rest;
        TellOne(t, connection, before, active - rest);
        assert active - rest + {t} == active - (rest - {t});
        rest := rest - {t};
      }
      leaving := map[];
      assert active - rest == active;
    }

    /**
     `connection_closed`: exactly the connection's sessions go, and each of its active ones whose task still runs is
     sent one terminate.
     */
    method CloseConnection(connection: Connection)
      requires Valid(View()) && leaving == map[]
      modifies `sessions, `closed, `inbox, `leaving
      ensures Valid(View()) && (old(Safe(View())) ==> Safe(View()))
      ensures leaving == map[] && closed == old(closed) + {connection}
      ensures sessions == map k | k in old(sessions) && k.connection != connection :: old(sessions)[k]
      ensures AllTold(old(View()), inbox, TasksOf(old(View()), connection), connection)
    {
      ghost var before := View();
      RemovedAreOwed(before, connection);
      var active := RemoveSessions(connection);
      TellAll(active, connection);
      ClosingValid(before, View(), connection);
      if Safe(before) { ClosingSafe(before, View(), connection); }
    }
  }

  // Running one command.

  const TIMEOUT_EXIT_CODE := 124
  const LOST_EXIT_CODE := -1

  /**
   What the select of a running command may pick. `accepted` is the fate of a control at the process: whether its stdin
   takes a write, or its terminal a resize.
   */
  datatype RunEvent = Asked(control: Control, accepted: bool) | ControlsClosed | Expired | Exited(code: Option<int>)

  /** The event asks the process to terminate. */
  predicate EndsIt(e: RunEvent) {
    e.Expired? || e.ControlsClosed? || (e.Asked? && e.control.Terminate?)
  }

  /** The bytes a control writes to the process. */
  function Wrote(control: Control, streamStdin: bool, accepted: bool): (bytes: seq<Byte>)
    ensures bytes != [] <==> control.Write? && control.delta != [] && streamStdin && accepted
    ensures bytes != [] ==> bytes == control.delta
  {
    if control.Write? && AnswerTo(control, streamStdin, accepted).Ok? then control.delta else []
  }

  /** The controls taken: those before their channel closes. */
  function Taken(events: seq<RunEvent>): (controls: seq<RunEvent>)
    ensures forall e | e in controls :: e.Asked? && e in events
    ensures forall e | e in events && e.Asked? && ControlsClosed !in events :: e in controls
  {
    if events == [] || events[0] == ControlsClosed then []
    else (if events[0].Asked? then [events[0]] else []) + Taken(events[1..])
  }

  /** One answer for each control taken, in order, and the bytes written by all of them. */
  function AnswersTo(controls: seq<RunEvent>, streamStdin: bool): seq<Result<(), ExecError>>
    requires forall e | e in controls :: e.Asked?
  {
    seq(|controls|, i requires 0 <= i < |controls| => AnswerTo(controls[i].control, streamStdin, controls[i].accepted))
  }

  function StdinOf(controls: seq<RunEvent>, streamStdin: bool): seq<Byte>
    requires forall e | e in controls :: e.Asked?
  {
    if controls == [] then []
    else
      var last := controls[|controls| - 1];
      StdinOf(controls[..|controls| - 1], streamStdin) + Wrote(last.control, streamStdin, last.accepted)
  }

  lemma {:induction false} TakenOneMore(events: seq<RunEvent>, e: RunEvent)
    ensures Taken(events + [e]) == Taken(events) + if e.Asked? && ControlsClosed !in events then [e] else []
  {
    if events == [] {
      assert [e][1..] == [];
    } else {
      assert (events + [e])[1..] == events[1..] + [e];
      assert events == [events[0]] + events[1..];
      TakenOneMore(events[1..], e);
    }
  }

  /** The events before the process exits. */
  function BeforeExit(events: seq<RunEvent>): seq<RunEvent> {
    if events == [] || events[0].Exited? then [] else [events[0]] + BeforeExit(events[1..])
  }

  lemma {:induction false} BeforeExitAt(events: seq<RunEvent>, n: nat)
    requires n <= |events| && (forall j | 0 <= j < n :: !events[j].Exited?) && (n < |events| ==> events[n].Exited?)
    ensures BeforeExit(events) == events[..n]
  {
    if n == 0 {
    } else {
      BeforeExitAt(events[1..], n - 1);
    }
  }

  lemma StdinOneMore(controls: seq<RunEvent>, e: RunEvent, streamStdin: bool)
    requires e.Asked? && forall c | c in controls :: c.Asked?
    ensures StdinOf(controls + [e], streamStdin)
         == StdinOf(controls, streamStdin) + Wrote(e.control, streamStdin, e.accepted)
  {
    assert (controls + [e])[..|controls|] == controls;
  }

  /** One control: what it is answered, what it writes, and whether it asks the process to terminate. */
  method HandleControl(control: Control, streamStdin: bool, accepted: bool)
    returns (answer: Result<(), ExecError>, written: seq<Byte>, terminate: bool)
    ensures answer == AnswerTo(control, streamStdin, accepted) && written == Wrote(control, streamStdin, accepted)
    ensures terminate <==> control.Terminate?
  {
    answer, written, terminate := Ok(()), [], false;
    match control {
      case Write(delta, _) =>
        if !streamStdin {
          answer := Err(StdinNotStreamed);
        } else if delta != [] {
          if accepted { written := delta; } else { answer := Err(StdinClosed); }
        }
      case Resize(_, _) => if !accepted { answer := Err(ResizeFailed); }
      case Terminate => terminate := true;
    }
  }

  /** What the loop keeps: its two flags, whether it has asked for termination, and what it has answered and written. */
  datatype RunState = RunState(
    timedOut: bool,
    controlOpen: bool,
    terminateRequested: bool,
    answers: seq<Result<(), ExecError>>,
    stdin: seq<Byte>
  )

  /** The state is the one that these events lead to. */
  ghost predicate LedBy(s: RunState, events: seq<RunEvent>, streamStdin: bool) {
    && (s.timedOut <==> Expired in events)
    && (s.controlOpen <==> ControlsClosed !in events)
    && (s.terminateRequested <==> exists e | e in events :: EndsIt(e))
    && s.answers == AnswersTo(Taken(events), streamStdin)
    && s.stdin == StdinOf(Taken(events), streamStdin)
  }

  /** A control, when its channel is open; `controls` are those taken before. */
  method OnControl(s: RunState, e: RunEvent, streamStdin: bool, ghost controls: seq<RunEvent>) returns (next: RunState)
    requires e.Asked? && s.controlOpen && forall c | c in controls :: c.Asked?
    requires s.answers == AnswersTo(controls, streamStdin) && s.stdin == StdinOf(controls, streamStdin)
    ensures next.timedOut == s.timedOut && next.controlOpen
    ensures next.terminateRequested == (s.terminateRequested || EndsIt(e))
    ensures next.answers == AnswersTo(controls + [e], streamStdin)
    ensures next.stdin == StdinOf(controls + [e], streamStdin)
  {
    var answer, written, terminate := HandleControl(e.control, streamStdin, e.accepted);
    StdinOneMore(controls, e, streamStdin);
    next := s.(terminateRequested := s.terminateRequested || terminate,
               answers := s.answers + [answer], stdin := s.stdin + written);
  }

  /** One event before the exit. */
  method OnEvent(s: RunState, e: RunEvent, streamStdin: bool, ghost before: seq<RunEvent>) returns (next: RunState)
    requires LedBy(s, before, streamStdin) && !e.Exited?
    ensures LedBy(next, before + [e], streamStdin)
  {
    TakenOneMore(before, e);
    assert !(e.Asked? && s.controlOpen) ==> Taken(before + [e]) == Taken(before);
    next := s;
    match e {
      case Asked(_, _) => if s.controlOpen { next := OnControl(s, e, streamStdin, Taken(before)); }
      case ControlsClosed => next := s.(controlOpen := false, terminateRequested := true);
      case Expired => next := s.(timedOut := true, terminateRequested := true);
    }
    assert EndsIt(e) ==> next.terminateRequested by {
      if e.Asked? && !s.controlOpen { assert EndsIt(ControlsClosed); }
    }
    assert next.terminateRequested ==> s.terminateRequested || EndsIt(e);
  }

  /** The events that ask for termination. */
  lemma EndsItIs(events: seq<RunEvent>)
    ensures (exists e | e in events :: EndsIt(e)) <==>
      exists e | e in events :: e == Expired || e == ControlsClosed || (e.Asked? && e.control == Terminate)
  {
  }

  /** The loop of `run_command`, up to the exit if there is one. */
  method TakeEvents(events: seq<RunEvent>, streamStdin: bool) returns (state: RunState, taken: nat)
    ensures taken <= |events| && LedBy(state, events[..taken], streamStdin)
    ensures (forall j | 0 <= j < taken :: !events[j].Exited?) && (taken < |events| ==> events[taken].Exited?)
  {
    state, taken := RunState(false, true, false, [], []), 0;
    while taken < |events| && !events[taken].Exited?
      invariant taken <= |events| && forall j | 0 <= j < taken :: !events[j].Exited?
      invariant LedBy(state, events[..taken], streamStdin)
      decreases |events| - taken
    {
      assert events[..taken + 1] == events[..taken] + [events[taken]];
      state := OnEvent(state, events[taken], streamStdin, events[..taken]);
      taken := taken + 1;
    }
  }

  /**
   `run_command` over the events the select is offered; it ignores controls once their channel is closed and
   the deadline once it has passed. The code is that of the timeout exactly when the deadline was taken before the exit;
   every control taken is answered once, in order, and the process is written exactly what the accepted writes carry.
   */
  method RunCommand(events: seq<RunEvent>, streamStdin: bool)
    returns (exitCode: Option<int>, terminateRequested: bool, answers: seq<Result<(), ExecError>>, stdin: seq<Byte>)
    ensures exitCode.None? <==> forall e | e in events :: !e.Exited?
    ensures exitCode.Some? ==> |BeforeExit(events)| < |events| && events[|BeforeExit(events)|].Exited?
    ensures exitCode.Some? && Expired in BeforeExit(events) ==> exitCode.value == 124
    ensures exitCode.Some? && Expired !in BeforeExit(events) ==>
      match events[|BeforeExit(events)|].code
      case Some(code) => exitCode.value == code
      case None => exitCode.value == -1
    ensures terminateRequested <==> exists e | e in BeforeExit(events) ::
      e == Expired || e == ControlsClosed || (e.Asked? && e.control == Terminate)
    ensures answers == AnswersTo(Taken(BeforeExit(events)), streamStdin)
    ensures stdin == StdinOf(Taken(BeforeExit(events)), streamStdin)
  {
    var state, taken := TakeEvents(events, streamStdin);
    BeforeExitAt(events, taken);
    EndsItIs(events[..taken]);
    exitCode, terminateRequested, answers, stdin := None, state.terminateRequested, state.answers, state.stdin;
    if taken < |events| {
      var code := events[taken].code;
      exitCode :=
        Some(if state.timedOut then TIMEOUT_EXIT_CODE else if code.Some? then code.value else LOST_EXIT_CODE);
    }
  }
}
