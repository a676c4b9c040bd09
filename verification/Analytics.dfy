/**
 The analytics reducer: facts about requests, responses, notifications and resolved configurations arrive in any order
 and are joined into at most one event per turn, and one event per steer request that is answered.
 */
module Analytics {
  import opened Prelude

  type RequestKey = (nat, RequestId)

  /** Where a thread comes from, as its events report it. */
  datatype ThreadMetadata = ThreadMetadata(source: Option<string>, mode: string, subagent: Option<string>,
          parent: Option<string>)

  datatype Client = Client(name: string, runtime: string)

  datatype Pending =
    | TurnStart(thread: string, images: nat)
    | TurnSteer(thread: string, expectedTurn: string, images: nat, createdAt: nat)

  datatype Completion = Completion(status: Option<string>, error: Option<string>, completedAt: nat,
          durationMs: Option<nat>)

  datatype TurnRecord = TurnRecord(
    connection: Option<nat>,
    thread: Option<string>,
    images: Option<nat>,
    config: Option<string>,
    startedAt: Option<nat>,
    usage: Option<string>,
    completed: Option<Completion>,
    steerCount: nat
  )

  const BLANK := TurnRecord(None, None, None, None, None, None, None, 0)

  datatype State = State(
    requests: map<RequestKey, Pending>,
    turns: map<string, TurnRecord>,
    connections: map<nat, Client>,
    threadConnections: map<string, nat>,
    threadMetadata: map<string, ThreadMetadata>
  )

  const EMPTY := State(map[], map[], map[], map[], map[])

  /** The facts that are reported by themselves, whatever the reducer knows. */
  datatype ReportKind =
    SkillInvoked | AppMentioned | AppUsed | HookRun | PluginUsed | PluginStateChanged | SubAgentThreadStarted

  /**
   The facts; times are as the notification carries them, before the range check. `Ignored` is any other request,
   response or notification.
   */
  datatype Fact =
    | Initialize(connection: nat, client: Client)
    | TurnStartRequest(connection: nat, request: RequestId, thread: string, images: nat)
    | TurnSteerRequest(connection: nat, request: RequestId, thread: string, expectedTurn: string, images: nat, now: nat)
    | ThreadResponse(connection: nat, thread: string, model: string, metadata: ThreadMetadata)
    | TurnStartResponse(connection: nat, request: RequestId, turn: string)
    | TurnSteerResponse(connection: nat, request: RequestId, turn: string)
    | ErrorResponse(connection: nat, request: RequestId, reason: Option<string>)
    | TurnStarted(turn: string, at: Option<int>)
    | TurnCompleted(turn: string, status: Option<string>, error: Option<string>, at: Option<int>,
            durationMs: Option<int>)
    | ResolvedConfig(turn: string, thread: string, images: nat, settings: string)
    | TokenUsage(turn: string, thread: string, usage: string)
    | Compaction(thread: string, report: string)
    | GuardianReview(thread: string, report: string)
    | Reported(kind: ReportKind, reports: seq<string>)
    | Ignored

  datatype Event =
    | ThreadInitialized(thread: string, client: Client, model: string, metadata: ThreadMetadata)
    | TurnSteerEvent(client: Client, metadata: ThreadMetadata, pending: Pending, acceptedTurn: Option<string>,
            reason: Option<string>)
    | TurnEvent(
        turn: string, client: Client, metadata: ThreadMetadata, thread: string, images: nat, config: string,
        completed: Completion, startedAt: Option<nat>, usage: Option<string>, steerCount: nat)
    | CompactionEvent(client: Client, metadata: ThreadMetadata, report: string)
    | GuardianReviewEvent(client: Client, report: string)
    | ReportedEvent(kind: ReportKind, report: string)

  /** `u64::try_from(..).ok()`. */
  function AsU64(x: Option<int>): Option<nat> {
    if x.Some? && 0 <= x.value < 0x1_0000_0000_0000_0000 then Some(x.value) else None
  }

  function CompletionOf(f: Fact): Completion
    requires f.TurnCompleted?
  {
    Completion(f.status, f.error, if AsU64(f.at).Some? then AsU64(f.at).value else 0, AsU64(f.durationMs))
  }

  /** The record of a turn, blank when there is none. */
  function RecordOf(s: State, turn: string): TurnRecord {
    if turn in s.turns then s.turns[turn] else BLANK
  }

  function WithRecord(s: State, turn: string, r: TurnRecord): State {
    s.(turns := s.turns[turn := r])
  }

  /** The record holds all that a turn event needs from it. */
  predicate Complete(r: TurnRecord) {
    r.thread.Some? && r.images.Some? && r.config.Some? && r.completed.Some?
  }

  /** The event of a turn, when its record, its connection and its thread are all known. */
  function TurnEventOf(s: State, turn: string): Option<Event> {
    if turn !in s.turns then None
    else
      var r := s.turns[turn];
      if !Complete(r) || r.connection.None? || r.connection.value !in s.connections
         || r.thread.value !in s.threadMetadata
      then None
      else Some(TurnEvent(turn, s.connections[r.connection.value], s.threadMetadata[r.thread.value], r.thread.value,
                          r.images.value, r.config.value, r.completed.value, r.startedAt, r.usage, r.steerCount))
  }

  datatype Reaction = Reaction(state: State, events: seq<Event>)

  /** `maybe_emit_turn_event`: an emitted turn leaves the table. */
  function MaybeEmit(s: State, turn: string): Reaction {
    match TurnEventOf(s, turn)
    case None => Reaction(s, [])
    case Some(e) => Reaction(s.(turns := s.turns - {turn}), [e])
  }

  /** `emit_turn_steer_event`. */
  function SteerEvents(s: State, connection: nat, pending: Pending, accepted: Option<string>,
          reason: Option<string>): seq<Event>
    requires pending.TurnSteer?
  {
    if connection !in s.connections || pending.thread !in s.threadMetadata then []
    else [TurnSteerEvent(s.connections[connection], s.threadMetadata[pending.thread], pending, accepted, reason)]
  }

  /** A response takes the pending request of its key, whatever its kind. */
  function Consumed(s: State, key: RequestKey): State {
    s.(requests := s.requests - {key})
  }

  predicate IsPending(s: State, key: RequestKey, steer: bool) {
    key in s.requests && s.requests[key].TurnSteer? == steer
  }

  function OnStartResponse(s: State, key: RequestKey, turn: string): Reaction {
    if !IsPending(s, key, false) then Reaction(Consumed(s, key), [])
    else
      var pending := s.requests[key];
      MaybeEmit(WithRecord(Consumed(s, key), turn, RecordOf(s, turn).(
                  connection := Some(key.0), thread := Some(pending.thread), images := Some(pending.images))), turn)
  }

  function OnSteerResponse(s: State, key: RequestKey, turn: string): Reaction {
    if !IsPending(s, key, true) then Reaction(Consumed(s, key), [])
    else
      var counted := if turn in s.turns
                     then WithRecord(Consumed(s, key), turn, s.turns[turn].(steerCount := s.turns[turn].steerCount + 1))
                     else Consumed(s, key);
      Reaction(counted, SteerEvents(s, key.0, s.requests[key], Some(turn), None))
  }

  function OnError(s: State, key: RequestKey, reason: Option<string>): Reaction {
    Reaction(Consumed(s, key),
             if IsPending(s, key, true) then SteerEvents(s, key.0, s.requests[key], None, reason) else [])
  }

  /** The client behind a thread, by way of the connection that initialised it. */
  function ClientOf(s: State, thread: string): Option<Client> {
    if thread in s.threadConnections && s.threadConnections[thread] in s.connections
    then Some(s.connections[s.threadConnections[thread]])
    else None
  }

  /** A compaction is reported when client and thread are known; a review needs the client only. */
  function ReportEvents(s: State, f: Fact): seq<Event>
    requires f.Compaction? || f.GuardianReview?
  {
    var client := ClientOf(s, f.thread);
    if client.None? then []
    else if f.GuardianReview? then [GuardianReviewEvent(client.value, f.report)]
    else if f.thread in s.threadMetadata then [CompactionEvent(client.value, s.threadMetadata[f.thread], f.report)]
    else []
  }

  /** One event for each thing reported. */
  function ReportedEvents(kind: ReportKind, reports: seq<string>): (events: seq<Event>)
    ensures forall e | e in events :: e.ReportedEvent?
  {
    seq(|reports|, i requires 0 <= i < |reports| => ReportedEvent(kind, reports[i]))
  }

  /** One fact. */
  function Ingest(s: State, f: Fact): Reaction {
    match f
    case Initialize(connection, client) => Reaction(s.(connections := s.connections[connection := client]), [])
    case TurnStartRequest(connection, request, thread, images) =>
      Reaction(s.(requests := s.requests[(connection, request) := TurnStart(thread, images)]), [])
    case TurnSteerRequest(connection, request, thread, expectedTurn, images, now) =>
      Reaction(s.(requests := s.requests[(connection, request) := TurnSteer(thread, expectedTurn, images, now)]), [])
    case ThreadResponse(connection, thread, model, metadata) =>
      if connection !in s.connections then Reaction(s, [])
      else Reaction(s.(threadConnections := s.threadConnections[thread := connection],
                       threadMetadata := s.threadMetadata[thread := metadata]),
                    [ThreadInitialized(thread, s.connections[connection], model, metadata)])
    case TurnStartResponse(connection, request, turn) => OnStartResponse(s, (connection, request), turn)
    case TurnSteerResponse(connection, request, turn) => OnSteerResponse(s, (connection, request), turn)
    case ErrorResponse(connection, request, reason) => OnError(s, (connection, request), reason)
    case TurnStarted(turn, at) => Reaction(WithRecord(s, turn, RecordOf(s, turn).(startedAt := AsU64(at))), [])
    case TurnCompleted(turn, _, _, _, _) =>
      MaybeEmit(WithRecord(s, turn, RecordOf(s, turn).(completed := Some(CompletionOf(f)))), turn)
    case ResolvedConfig(turn, thread, images, settings) =>
      MaybeEmit(WithRecord(s, turn, RecordOf(s, turn).(
                  thread := Some(thread), images := Some(images), config := Some(settings))), turn)
    case TokenUsage(turn, thread, usage) =>
      MaybeEmit(WithRecord(s, turn, RecordOf(s, turn).(thread := Some(thread), usage := Some(usage))), turn)
    case Compaction(_, _) | GuardianReview(_, _) => Reaction(s, ReportEvents(s, f))
    case Reported(kind, reports) => Reaction(s, ReportedEvents(kind, reports))
    case Ignored => Reaction(s, [])
  }

  /** A run: the state after a sequence of facts, and all events emitted on the way. */
  function After(s: State, facts: seq<Fact>): Reaction
    decreases |facts|
  {
    if facts == [] then Reaction(s, [])
    else
      var before := After(s, facts[..|facts| - 1]);
      var last := Ingest(before.state, facts[|facts| - 1]);
      Reaction(last.state, before.events + last.events)
  }

  // Order independence.

  predicate IsTurnEvent(e: Event, turn: string) {
    e.TurnEvent? && e.turn == turn
  }

  function TurnEvents(events: seq<Event>, turn: string): seq<Event> {
    if events == [] then []
    else
      var last := events[|events| - 1];
      TurnEvents(events[..|events| - 1], turn) + if IsTurnEvent(last, turn) then [last] else []
  }

  lemma {:induction false} TurnEventsGrow(events: seq<Event>, more: seq<Event>, turn: string)
    ensures TurnEvents(events + more, turn) == TurnEvents(events, turn) + TurnEvents(more, turn)
    decreases |more|
  {
    if more == [] {
      assert events + more == events;
    } else {
      assert (events + more)[..|events + more| - 1] == events + more[..|more| - 1];
      TurnEventsGrow(events, more[..|more| - 1], turn);
    }
  }

  lemma {:induction false} NoTurnEvents(events: seq<Event>, turn: string)
    requires forall e | e in events :: !IsTurnEvent(e, turn)
    ensures TurnEvents(events, turn) == []
    decreases |events|
  {
    if events == [] {
    } else {
      NoTurnEvents(events[..|events| - 1], turn);
    }
  }

  lemma OneTurnEvent(e: Event, turn: string)
    ensures TurnEvents([e], turn) == if IsTurnEvent(e, turn) then [e] else []
  {
    assert [e][..0] == [];
  }

  /** One turn of the story: who starts it, in which thread, what it is configured with, and how it ends. */
  datatype Turn = Turn(id: string, key: RequestKey, thread: string, images: nat, settings: string, ending: Fact)

  predicate WellFormed(t: Turn) {
    t.ending.TurnCompleted? && t.ending.turn == t.id
  }

  function Response(t: Turn): Fact {
    TurnStartResponse(t.key.0, t.key.1, t.id)
  }

  function Config(t: Turn): Fact {
    ResolvedConfig(t.id, t.thread, t.images, t.settings)
  }

  /** The fact is about another turn or about none: it names neither this one nor its request. */
  predicate AboutOthers(t: Turn, f: Fact) {
    match f
    case TurnStartRequest(connection, request, _, _) => (connection, request) != t.key
    case TurnSteerRequest(connection, request, _, _, _, _) => (connection, request) != t.key
    case TurnStartResponse(connection, request, turn) => (connection, request) != t.key && turn != t.id
    case TurnSteerResponse(connection, request, turn) => (connection, request) != t.key && turn != t.id
    case ErrorResponse(connection, request, _) => (connection, request) != t.key
    case TurnStarted(turn, _) => turn != t.id
    case TurnCompleted(turn, _, _, _, _) => turn != t.id
    case ResolvedConfig(turn, _, _, _) => turn != t.id
    case TokenUsage(turn, _, _) => turn != t.id
    case _ => true
  }

  /** The fact adds to the turn: its start notice, its token usage, or the answer to a steer that names it. */
  predicate Adds(t: Turn, f: Fact) {
    match f
    case TurnStarted(turn, _) => turn == t.id
    case TokenUsage(turn, thread, _) => turn == t.id && thread == t.thread
    case TurnSteerResponse(connection, request, turn) => turn == t.id && (connection, request) != t.key
    case _ => false
  }

  /** The connection and the thread are initialised, the request is recorded, and the turn is not yet known. */
  predicate Ready(s: State, t: Turn) {
    && t.key.0 in s.connections && t.thread in s.threadMetadata
    && t.key in s.requests && s.requests[t.key] == TurnStart(t.thread, t.images)
    && t.id !in s.turns
  }

  /** The turn's facts in a sequence: each of the three at one place, everything else adding to it or about others. */
  predicate Story(facts: seq<Fact>, t: Turn, i: nat, j: nat, k: nat) {
    && WellFormed(t)
    && i < |facts| && facts[i] == Response(t)
    && j < |facts| && facts[j] == Config(t)
    && k < |facts| && facts[k] == t.ending
    && forall n | 0 <= n < |facts| && n != i && n != j && n != k :: AboutOthers(t, facts[n]) || Adds(t, facts[n])
  }

  /** What has been added to a turn: whether its record is open, its start, its usage, its accepted steers. */
  datatype Extras = Extras(open: bool, startedAt: Option<nat>, usage: Option<string>, steers: nat)

  /** The facts open the turn's record. */
  predicate Opened(facts: seq<Fact>, turn: string) {
    exists f | f in facts :: Opens(f, turn)
  }

  predicate Opens(f: Fact, turn: string) {
    && (f.TurnStarted? || f.TokenUsage? || f.TurnStartResponse? || f.ResolvedConfig? || f.TurnCompleted?)
    && f.turn == turn
  }

  /** The start time of the last start notice. */
  function LastStart(facts: seq<Fact>, turn: string): Option<nat> {
    if facts == [] then None
    else
      var f := facts[|facts| - 1];
      if f.TurnStarted? && f.turn == turn then AsU64(f.at) else LastStart(facts[..|facts| - 1], turn)
  }

  /** The last token usage. */
  function LastUsage(facts: seq<Fact>, turn: string): Option<string> {
    if facts == [] then None
    else
      var f := facts[|facts| - 1];
      if f.TokenUsage? && f.turn == turn then Some(f.usage) else LastUsage(facts[..|facts| - 1], turn)
  }

  /** The accepted steers that name the turn once its record is open. */
  function OpenSteers(s: State, facts: seq<Fact>, turn: string): nat
    decreases |facts|
  {
    if facts == [] then 0
    else
      var init, f := facts[..|facts| - 1], facts[|facts| - 1];
      OpenSteers(s, init, turn) + One(Opened(init, turn) && AcceptsSteer(After(s, init).state, f, turn))
  }

  function Added(s: State, facts: seq<Fact>, turn: string): Extras {
    Extras(Opened(facts, turn), LastStart(facts, turn), LastUsage(facts, turn), OpenSteers(s, facts, turn))
  }

  /** What one fact adds. */
  function Noted(s: State, x: Extras, f: Fact, turn: string): Extras {
    match f
    case TurnStarted(id, at) => if id == turn then x.(open := true, startedAt := AsU64(at)) else x
    case TokenUsage(id, _, usage) => if id == turn then x.(open := true, usage := Some(usage)) else x
    case TurnStartResponse(_, _, id) => if id == turn then x.(open := true) else x
    case ResolvedConfig(id, _, _, _) => if id == turn then x.(open := true) else x
    case TurnCompleted(id, _, _, _, _) => if id == turn then x.(open := true) else x
    case TurnSteerResponse(_, _, _) => if x.open && AcceptsSteer(s, f, turn) then x.(steers := x.steers + 1) else x
    case _ => x
  }

  lemma OpenedOneMore(facts: seq<Fact>, turn: string)
    requires facts != []
    ensures Opened(facts, turn) == (Opened(facts[..|facts| - 1], turn) || Opens(facts[|facts| - 1], turn))
  {
    assert facts == facts[..|facts| - 1] + [facts[|facts| - 1]];
  }

  lemma AddedOneMore(s: State, facts: seq<Fact>, turn: string)
    requires facts != []
    ensures var init := facts[..|facts| - 1];
      Added(s, facts, turn) == Noted(After(s, init).state, Added(s, init, turn), facts[|facts| - 1], turn)
  {
    OpenedOneMore(facts, turn);
  }

  /** The client of a connection after the facts: that of its last initialisation. */
  function ClientNow(s: State, facts: seq<Fact>, connection: nat): (r: Option<Client>)
    ensures connection in s.connections ==> r.Some?
  {
    if facts == [] then if connection in s.connections then Some(s.connections[connection]) else None
    else
      var f := facts[|facts| - 1];
      if f.Initialize? && f.connection == connection then Some(f.client)
      else ClientNow(s, facts[..|facts| - 1], connection)
  }

  /** The metadata of a thread after the facts: that of its last response on an initialised connection. */
  function MetadataNow(s: State, facts: seq<Fact>, thread: string): (r: Option<ThreadMetadata>)
    ensures thread in s.threadMetadata ==> r.Some?
  {
    if facts == [] then if thread in s.threadMetadata then Some(s.threadMetadata[thread]) else None
    else
      var init, f := facts[..|facts| - 1], facts[|facts| - 1];
      if f.ThreadResponse? && f.thread == thread && ClientNow(s, init, f.connection).Some? then Some(f.metadata)
      else MetadataNow(s, init, thread)
  }

  function Entry<K, V>(table: map<K, V>, key: K): Option<V> {
    if key in table then Some(table[key]) else None
  }

  lemma OnlyInitializeConnects(s: State, f: Fact)
    ensures Ingest(s, f).state.connections
         == if f.Initialize? then s.connections[f.connection := f.client] else s.connections
  {
  }

  lemma OnlyThreadsDescribe(s: State, f: Fact)
    ensures Ingest(s, f).state.threadMetadata
         == if f.ThreadResponse? && f.connection in s.connections then s.threadMetadata[f.thread := f.metadata]
            else s.threadMetadata
  {
  }

  lemma {:induction false} ClientKnown(s: State, facts: seq<Fact>, connection: nat)
    ensures Entry(After(s, facts).state.connections, connection) == ClientNow(s, facts, connection)
    decreases |facts|
  {
    if facts == [] {
    } else {
      var init, f := facts[..|facts| - 1], facts[|facts| - 1];
      ClientKnown(s, init, connection);
      OnlyInitializeConnects(After(s, init).state, f);
    }
  }

  lemma {:induction false} MetadataKnown(s: State, facts: seq<Fact>, thread: string)
    ensures Entry(After(s, facts).state.threadMetadata, thread) == MetadataNow(s, facts, thread)
    decreases |facts|
  {
    if facts == [] {
    } else {
      var init, f := facts[..|facts| - 1], facts[|facts| - 1];
      MetadataKnown(s, init, thread);
      if f.ThreadResponse? { ClientKnown(s, init, f.connection); }
      OnlyThreadsDescribe(After(s, init).state, f);
    }
  }

  /** The event that joins the three, for a client and a thread, with what has been added before. */
  function Joined(client: Client, metadata: ThreadMetadata, t: Turn, x: Extras): Event
    requires WellFormed(t)
  {
    TurnEvent(t.id, client, metadata, t.thread, t.images, t.settings, CompletionOf(t.ending),
              x.startedAt, x.usage, x.steers)
  }

  /** The same, with all that is in force after the facts. */
  function JoinedAfter(s: State, facts: seq<Fact>, t: Turn): Event
    requires Ready(s, t) && WellFormed(t)
  {
    Joined(ClientNow(s, facts, t.key.0).value, MetadataNow(s, facts, t.thread).value, t, Added(s, facts, t.id))
  }

  /** The record when some, but not all, of the three have been seen. */
  function Partial(t: Turn, response: bool, config: bool, ending: bool, x: Extras): TurnRecord
    requires WellFormed(t)
  {
    TurnRecord(if response then Some(t.key.0) else None,
               if response || config || x.usage.Some? then Some(t.thread) else None,
               if response || config then Some(t.images) else None,
               if config then Some(t.settings) else None,
               x.startedAt, x.usage,
               if ending then Some(CompletionOf(t.ending)) else None,
               x.steers)
  }

  /** What the state knows of the turn when the flagged facts have been seen. */
  predicate Knows(s: State, t: Turn, response: bool, config: bool, ending: bool, x: Extras)
    requires WellFormed(t)
  {
    && t.key.0 in s.connections && t.thread in s.threadMetadata
    && (!response ==> t.key in s.requests && s.requests[t.key] == TurnStart(t.thread, t.images))
    && if response && config && ending then RecordOf(s, t.id).config.None?
       else
         && (t.id in s.turns <==> x.open) && (x.usage.Some? || response || config || ending ==> x.open)
         && RecordOf(s, t.id) == Partial(t, response, config, ending, x)
  }

  /** The event that joins the three in a state that knows the client and the thread. */
  function JoinedIn(s: State, t: Turn, x: Extras): Event
    requires WellFormed(t) && t.key.0 in s.connections && t.thread in s.threadMetadata
  {
    Joined(s.connections[t.key.0], s.threadMetadata[t.thread], t, x)
  }

  /** What a state holds for the turn, another holds too. */
  predicate SameFor(t: Turn, s: State, next: State) {
    && (t.key.0 in s.connections ==> t.key.0 in next.connections)
    && (t.thread in s.threadMetadata ==> t.thread in next.threadMetadata)
    && (t.key in s.requests ==> t.key in next.requests && next.requests[t.key] == s.requests[t.key])
    && (t.id in s.turns <==> t.id in next.turns)
    && (t.id in s.turns ==> next.turns[t.id] == s.turns[t.id])
  }

  lemma RecordKeeps(t: Turn, s: State, turn: string, r: TurnRecord)
    requires turn != t.id
    ensures SameFor(t, s, MaybeEmit(WithRecord(s, turn, r), turn).state)
    ensures TurnEvents(MaybeEmit(WithRecord(s, turn, r), turn).events, t.id) == []
  {
  }

  /** The fact goes into a turn's record and may complete it. */
  predicate FillsRecord(f: Fact) {
    f.TurnStartResponse? || f.TurnCompleted? || f.ResolvedConfig? || f.TokenUsage?
  }

  lemma OthersFill(t: Turn, s: State, f: Fact)
    requires AboutOthers(t, f) && FillsRecord(f)
    ensures SameFor(t, s, Ingest(s, f).state)
    ensures TurnEvents(Ingest(s, f).events, t.id) == []
  {
    match f {
      case TurnStartResponse(connection, request, turn) =>
        if IsPending(s, (connection, request), false) {
          var pending := s.requests[(connection, request)];
          RecordKeeps(t, Consumed(s, (connection, request)), turn, RecordOf(s, turn).(
                        connection := Some(connection), thread := Some(pending.thread),
                        images := Some(pending.images)));
        }
      case TurnCompleted(turn, _, _, _, _) =>
        RecordKeeps(t, s, turn, RecordOf(s, turn).(completed := Some(CompletionOf(f))));
      case ResolvedConfig(turn, thread, images, settings) =>
        RecordKeeps(t, s, turn,
                    RecordOf(s, turn).(thread := Some(thread), images := Some(images), config := Some(settings)));
      case TokenUsage(turn, thread, usage) =>
        RecordKeeps(t, s, turn, RecordOf(s, turn).(thread := Some(thread), usage := Some(usage)));
    }
  }

  lemma OthersAnswered(t: Turn, s: State, f: Fact)
    requires AboutOthers(t, f) && (f.TurnSteerResponse? || f.ErrorResponse?)
    ensures SameFor(t, s, Ingest(s, f).state)
    ensures TurnEvents(Ingest(s, f).events, t.id) == []
  {
    NoTurnEvents(Ingest(s, f).events, t.id);
  }

  lemma OthersPass(t: Turn, s: State, f: Fact)
    requires AboutOthers(t, f) && !FillsRecord(f)
    ensures SameFor(t, s, Ingest(s, f).state)
    ensures TurnEvents(Ingest(s, f).events, t.id) == []
  {
    if f.TurnSteerResponse? || f.ErrorResponse? {
      OthersAnswered(t, s, f);
    } else {
      NoTurnEvents(Ingest(s, f).events, t.id);
    }
  }

  lemma OthersKeep(t: Turn, s: State, f: Fact)
    requires AboutOthers(t, f)
    ensures SameFor(t, s, Ingest(s, f).state)
    ensures TurnEvents(Ingest(s, f).events, t.id) == []
  {
    if FillsRecord(f) { OthersFill(t, s, f); } else { OthersPass(t, s, f); }
  }

  lemma OthersNoted(s: State, t: Turn, f: Fact, x: Extras)
    requires AboutOthers(t, f)
    ensures Noted(s, x, f, t.id) == x
  {
  }

  /** A fact that adds to the turn is noted, and emits no turn event. */
  lemma AddsAdvance(s: State, t: Turn, f: Fact, response: bool, config: bool, ending: bool, x: Extras)
    requires WellFormed(t) && Knows(s, t, response, config, ending, x) && Adds(t, f)
    ensures Knows(Ingest(s, f).state, t, response, config, ending, Noted(s, x, f, t.id))
    ensures TurnEvents(Ingest(s, f).events, t.id) == []
  {
  }

  lemma ResponseAdvances(s: State, t: Turn, config: bool, ending: bool, x: Extras)
    requires WellFormed(t) && Knows(s, t, false, config, ending, x)
    ensures Knows(Ingest(s, Response(t)).state, t, true, config, ending, Noted(s, x, Response(t), t.id))
    ensures Ingest(s, Response(t)).events == if config && ending then [JoinedIn(s, t, x)] else []
  {
  }

  lemma ConfigAdvances(s: State, t: Turn, response: bool, ending: bool, x: Extras)
    requires WellFormed(t) && Knows(s, t, response, false, ending, x)
    ensures Knows(Ingest(s, Config(t)).state, t, response, true, ending, Noted(s, x, Config(t), t.id))
    ensures Ingest(s, Config(t)).events == if response && ending then [JoinedIn(s, t, x)] else []
  {
  }

  lemma EndingAdvances(s: State, t: Turn, response: bool, config: bool, x: Extras)
    requires WellFormed(t) && Knows(s, t, response, config, false, x)
    ensures Knows(Ingest(s, t.ending).state, t, response, config, true, Noted(s, x, t.ending, t.id))
    ensures Ingest(s, t.ending).events == if response && config then [JoinedIn(s, t, x)] else []
  {
  }

  /** The fact at `m` takes the turn's flags from `m` facts to `m + 1`. */
  lemma Advances(s: State, facts: seq<Fact>, t: Turn, i: nat, j: nat, k: nat, m: nat, x: Extras)
    requires Story(facts, t, i, j, k) && m < |facts|
    requires Knows(s, t, i < m, j < m, k < m, x)
    ensures Knows(Ingest(s, facts[m]).state, t, i <= m, j <= m, k <= m, Noted(s, x, facts[m], t.id))
    ensures TurnEvents(Ingest(s, facts[m]).events, t.id) == if m == Latest(i, j, k) then [JoinedIn(s, t, x)] else []
  {
    OneTurnEvent(JoinedIn(s, t, x), t.id);
    if m == i {
      ResponseAdvances(s, t, j < m, k < m, x);
    } else if m == j {
      ConfigAdvances(s, t, i < m, k < m, x);
    } else if m == k {
      EndingAdvances(s, t, i < m, j < m, x);
    } else if AboutOthers(t, facts[m]) {
      OthersKeep(t, s, facts[m]);
      OthersNoted(s, t, facts[m], x);
    } else {
      AddsAdvance(s, t, facts[m], i < m, j < m, k < m, x);
    }
  }

  /** The place of the last of the three. */
  function Latest(i: nat, j: nat, k: nat): nat {
    if i >= j && i >= k then i else if j >= k then j else k
  }

  /** The events of the turn after the first `n` facts. */
  function EventsDue(s: State, facts: seq<Fact>, t: Turn, i: nat, j: nat, k: nat, n: nat): seq<Event>
    requires Ready(s, t) && Story(facts, t, i, j, k)
  {
    if Latest(i, j, k) < n then [JoinedAfter(s, facts[..Latest(i, j, k)], t)] else []
  }

  /** After the first `n` facts: what the state knows, and whether the turn's event is out. */
  predicate Known(s0: State, r: Reaction, facts: seq<Fact>, t: Turn, i: nat, j: nat, k: nat, n: nat)
    requires Ready(s0, t) && Story(facts, t, i, j, k) && n <= |facts|
  {
    && Knows(r.state, t, i < n, j < n, k < n, Added(s0, facts[..n], t.id))
    && TurnEvents(r.events, t.id) == EventsDue(s0, facts, t, i, j, k, n)
  }

  lemma KnownOneMore(s0: State, facts: seq<Fact>, t: Turn, i: nat, j: nat, k: nat, m: nat)
    requires Ready(s0, t) && Story(facts, t, i, j, k) && m < |facts|
    requires Known(s0, After(s0, facts[..m]), facts, t, i, j, k, m)
    ensures Known(s0, After(s0, facts[..m + 1]), facts, t, i, j, k, m + 1)
  {
    var r, x, last := After(s0, facts[..m]), Added(s0, facts[..m], t.id), Ingest(After(s0, facts[..m]).state, facts[m]);
    assert After(s0, facts[..m + 1]) == Reaction(last.state, r.events + last.events)
        && Added(s0, facts[..m + 1], t.id) == Noted(r.state, x, facts[m], t.id) by {
      assert facts[..m + 1][..m] == facts[..m];
      AddedOneMore(s0, facts[..m + 1], t.id);
    }
    Advances(r.state, facts, t, i, j, k, m, x);
    ClientKnown(s0, facts[..m], t.key.0);
    MetadataKnown(s0, facts[..m], t.thread);
    TurnEventsGrow(r.events, last.events, t.id);
  }

  lemma {:induction false} KnownAlways(s0: State, facts: seq<Fact>, t: Turn, i: nat, j: nat, k: nat, n: nat)
    requires Ready(s0, t) && Story(facts, t, i, j, k) && n <= |facts|
    ensures Known(s0, After(s0, facts[..n]), facts, t, i, j, k, n)
    decreases n
  {
    if n == 0 {
      assert facts[..0] == [];
    } else {
      KnownAlways(s0, facts, t, i, j, k, n - 1);
      KnownOneMore(s0, facts, t, i, j, k, n - 1);
    }
  }

  /**
   Order independence: the response, the configuration and the completion of a turn, in any order, among any facts that
   add to it, any about others and any that initialise connections and threads anew, emit exactly one turn event, at the
   last of the three. It joins the three for the client and the thread metadata then in force, and reports the last
   start notice, the last usage and the accepted steers that came before.
   */
  lemma OneEventWhateverTheOrder(s: State, facts: seq<Fact>, t: Turn, i: nat, j: nat, k: nat, n: nat)
    requires Ready(s, t) && Story(facts, t, i, j, k) && n <= |facts|
    ensures TurnEvents(After(s, facts[..n]).events, t.id)
         == if Latest(i, j, k) < n then [JoinedAfter(s, facts[..Latest(i, j, k)], t)] else []
  {
    KnownAlways(s, facts, t, i, j, k, n);
  }

  // Accounting.

  /** The fact is the response to a pending turn/start request, and names the turn. */
  predicate AcceptsStart(s: State, f: Fact, turn: string) {
    f.TurnStartResponse? && f.turn == turn && IsPending(s, (f.connection, f.request), false)
  }

  predicate AcceptsSteer(s: State, f: Fact, turn: string) {
    f.TurnSteerResponse? && f.turn == turn && IsPending(s, (f.connection, f.request), true)
  }

  predicate Configures(f: Fact, turn: string) {
    f.ResolvedConfig? && f.turn == turn
  }

  predicate Completes(f: Fact, turn: string) {
    f.TurnCompleted? && f.turn == turn
  }

  function One(b: bool): nat {
    if b then 1 else 0
  }

  function AcceptedStarts(facts: seq<Fact>, turn: string): nat
    decreases |facts|
  {
    if facts == [] then 0
    else var init := facts[..|facts| - 1];
         AcceptedStarts(init, turn) + One(AcceptsStart(After(EMPTY, init).state, facts[|facts| - 1], turn))
  }

  function AcceptedSteers(facts: seq<Fact>, turn: string): nat
    decreases |facts|
  {
    if facts == [] then 0
    else var init := facts[..|facts| - 1];
         AcceptedSteers(init, turn) + One(AcceptsSteer(After(EMPTY, init).state, facts[|facts| - 1], turn))
  }

  function Configurations(facts: seq<Fact>, turn: string): nat {
    if facts == [] then 0 else Configurations(facts[..|facts| - 1], turn) + One(Configures(facts[|facts| - 1], turn))
  }

  function Completions(facts: seq<Fact>, turn: string): nat {
    if facts == [] then 0 else Completions(facts[..|facts| - 1], turn) + One(Completes(facts[|facts| - 1], turn))
  }

  /** What the turn's record holds after another has taken its place, or not. */
  function Held(s: State, at: string, r: TurnRecord, turn: string): TurnRecord {
    if at == turn then r else RecordOf(s, turn)
  }

  /** An emission uses up a record. */
  lemma EmissionUsesRecord(s: State, at: string, r: TurnRecord, turn: string)
    ensures var after := MaybeEmit(WithRecord(s, at, r), at); var held := Held(s, at, r, turn);
      && (TurnEvents(after.events, turn) == [] ==> RecordOf(after.state, turn) == held)
      && (TurnEvents(after.events, turn) != [] ==>
            |TurnEvents(after.events, turn)| == 1 && RecordOf(after.state, turn) == BLANK
            && held.connection.Some? && held.config.Some? && held.completed.Some?)
  {
    match TurnEventOf(WithRecord(s, at, r), at)
    case None =>
    case Some(e) => OneTurnEvent(e, turn);
  }

  /** Events emitted and parts held, against the parts held before and the parts that have come. */
  predicate Within(emitted: nat, after: TurnRecord, before: TurnRecord, start: bool, config: bool, completion: bool) {
    && emitted + One(after.connection.Some?) <= One(before.connection.Some?) + One(start)
    && emitted + One(after.config.Some?) <= One(before.config.Some?) + One(config)
    && emitted + One(after.completed.Some?) <= One(before.completed.Some?) + One(completion)
  }

  lemma RecordWorth(s: State, at: string, r: TurnRecord, turn: string, start: bool, config: bool, completion: bool)
    requires at == turn && r.connection.Some? ==> RecordOf(s, turn).connection.Some? || start
    requires at == turn && r.config.Some? ==> RecordOf(s, turn).config.Some? || config
    requires at == turn && r.completed.Some? ==> RecordOf(s, turn).completed.Some? || completion
    ensures var after := MaybeEmit(WithRecord(s, at, r), at);
      Within(|TurnEvents(after.events, turn)|, RecordOf(after.state, turn), RecordOf(s, turn),
             start, config, completion)
  {
    EmissionUsesRecord(s, at, r, turn);
  }

  lemma StartResponseWorth(s: State, key: RequestKey, at: string, turn: string)
    ensures var r := OnStartResponse(s, key, at);
      Within(|TurnEvents(r.events, turn)|, RecordOf(r.state, turn), RecordOf(s, turn),
             at == turn && IsPending(s, key, false), false, false)
  {
    if IsPending(s, key, false) {
      RecordWorth(Consumed(s, key), at, RecordOf(s, at).(
                    connection := Some(key.0), thread := Some(s.requests[key].thread),
                    images := Some(s.requests[key].images)),
                  turn, at == turn, false, false);
    }
  }

  lemma OtherFactsWorth(s: State, f: Fact, turn: string)
    requires !FillsRecord(f)
    ensures var r := Ingest(s, f); var before, after := RecordOf(s, turn), RecordOf(r.state, turn);
      && TurnEvents(r.events, turn) == []
      && after.connection == before.connection && after.config == before.config && after.completed == before.completed
  {
    NoTurnEvents(Ingest(s, f).events, turn);
  }

  lemma CompletionWorth(s: State, f: Fact, turn: string)
    requires f.TurnCompleted?
    ensures var r := Ingest(s, f);
      Within(|TurnEvents(r.events, turn)|, RecordOf(r.state, turn), RecordOf(s, turn), false, false, Completes(f, turn))
  {
    RecordWorth(s, f.turn, RecordOf(s, f.turn).(completed := Some(CompletionOf(f))), turn, false, false,
                f.turn == turn);
  }

  lemma ConfigWorth(s: State, f: Fact, turn: string)
    requires f.ResolvedConfig?
    ensures var r := Ingest(s, f);
      Within(|TurnEvents(r.events, turn)|, RecordOf(r.state, turn), RecordOf(s, turn), false, Configures(f, turn),
             false)
  {
    RecordWorth(s, f.turn, RecordOf(s, f.turn).(
                  thread := Some(f.thread), images := Some(f.images), config := Some(f.settings)),
                turn, false, f.turn == turn, false);
  }

  lemma FillingFactsWorth(s: State, f: Fact, turn: string)
    requires FillsRecord(f)
    ensures var r := Ingest(s, f);
      Within(|TurnEvents(r.events, turn)|, RecordOf(r.state, turn), RecordOf(s, turn),
             AcceptsStart(s, f, turn), Configures(f, turn), Completes(f, turn))
  {
    match f {
      case TurnStartResponse(connection, request, at) => StartResponseWorth(s, (connection, request), at, turn);
      case TurnCompleted(_, _, _, _, _) => CompletionWorth(s, f, turn);
      case ResolvedConfig(_, _, _, _) => ConfigWorth(s, f, turn);
      case TokenUsage(at, thread, usage) =>
        RecordWorth(s, at, RecordOf(s, at).(thread := Some(thread), usage := Some(usage)), turn, false, false, false);
    }
  }

  /** A record holds only what some fact put there. */
  lemma OneFactsWorth(s: State, f: Fact, turn: string)
    ensures var r := Ingest(s, f);
      Within(|TurnEvents(r.events, turn)|, RecordOf(r.state, turn), RecordOf(s, turn),
             AcceptsStart(s, f, turn), Configures(f, turn), Completes(f, turn))
  {
    if FillsRecord(f) { FillingFactsWorth(s, f, turn); } else { OtherFactsWorth(s, f, turn); }
  }

  /**
   Over a whole run, the events of a turn never outnumber its accepted start responses, its configurations or its
   completions.
   */
  lemma {:induction false} EventsWithinBudget(facts: seq<Fact>, turn: string)
    ensures var r := After(EMPTY, facts); var emitted := |TurnEvents(r.events, turn)|;
      && emitted + One(RecordOf(r.state, turn).connection.Some?) <= AcceptedStarts(facts, turn)
      && emitted + One(RecordOf(r.state, turn).config.Some?) <= Configurations(facts, turn)
      && emitted + One(RecordOf(r.state, turn).completed.Some?) <= Completions(facts, turn)
    decreases |facts|
  {
    if facts == [] {
    } else {
      var init, last := facts[..|facts| - 1], facts[|facts| - 1];
      EventsWithinBudget(init, turn);
      var before := After(EMPTY, init);
      OneFactsWorth(before.state, last, turn);
      TurnEventsGrow(before.events, Ingest(before.state, last).events, turn);
    }
  }

  /** The number of facts after which the turn's present record was opened; all of them when there is none. */
  function OpenedAt(facts: seq<Fact>, turn: string): (n: nat)
    ensures n <= |facts|
    decreases |facts|
  {
    if facts == [] || turn !in After(EMPTY, facts).state.turns then |facts| else OpenedAt(facts[..|facts| - 1], turn)
  }

  /** How the steers of the turn's record are counted from one state to the next, and reported on the way. */
  predicate SteersCounted(s: State, r: Reaction, turn: string, accepted: bool) {
    && (turn in r.state.turns ==>
          RecordOf(r.state, turn).steerCount == RecordOf(s, turn).steerCount + One(accepted && turn in s.turns))
    && (turn !in s.turns && turn in r.state.turns ==> !accepted)
    && (forall e | e in r.events && IsTurnEvent(e, turn) :: e.steerCount == RecordOf(s, turn).steerCount && !accepted)
  }

  lemma FillingKeepsSteers(s: State, at: string, r: TurnRecord, turn: string)
    requires r.steerCount == RecordOf(s, at).steerCount
    ensures SteersCounted(s, MaybeEmit(WithRecord(s, at, r), at), turn, false)
  {
  }

  lemma SteersOfFilling(s: State, f: Fact, turn: string)
    requires FillsRecord(f)
    ensures SteersCounted(s, Ingest(s, f), turn, false)
  {
    match f {
      case TurnStartResponse(connection, request, at) =>
        var key := (connection, request);
        if IsPending(s, key, false) {
          FillingKeepsSteers(Consumed(s, key), at, RecordOf(s, at).(
                               connection := Some(connection), thread := Some(s.requests[key].thread),
                               images := Some(s.requests[key].images)), turn);
        }
      case TurnCompleted(at, _, _, _, _) =>
        FillingKeepsSteers(s, at, RecordOf(s, at).(completed := Some(CompletionOf(f))), turn);
      case ResolvedConfig(at, thread, images, settings) =>
        FillingKeepsSteers(s, at, RecordOf(s, at).(
                             thread := Some(thread), images := Some(images), config := Some(settings)), turn);
      case TokenUsage(at, thread, usage) =>
        FillingKeepsSteers(s, at, RecordOf(s, at).(thread := Some(thread), usage := Some(usage)), turn);
    }
  }

  lemma SteersOfOther(s: State, f: Fact, turn: string)
    requires !FillsRecord(f)
    ensures SteersCounted(s, Ingest(s, f), turn, AcceptsSteer(s, f, turn))
  {
  }

  lemma SteersOfOneFact(s: State, f: Fact, turn: string)
    ensures SteersCounted(s, Ingest(s, f), turn, AcceptsSteer(s, f, turn))
  {
    if FillsRecord(f) { SteersOfFilling(s, f, turn); } else { SteersOfOther(s, f, turn); }
  }

  /** A record counts the accepted steers that named its turn since it was opened. */
  lemma {:induction false} RecordCountsOpenSteers(facts: seq<Fact>, turn: string)
    ensures RecordOf(After(EMPTY, facts).state, turn).steerCount
         == AcceptedSteers(facts, turn) - AcceptedSteers(facts[..OpenedAt(facts, turn)], turn)
    decreases |facts|
  {
    if facts == [] || turn !in After(EMPTY, facts).state.turns {
      assert facts[..|facts|] == facts;
    } else {
      var init, last := facts[..|facts| - 1], facts[|facts| - 1];
      var n := OpenedAt(init, turn);
      RecordCountsOpenSteers(init, turn);
      SteersOfOneFact(After(EMPTY, init).state, last, turn);
      assert facts[..n] == init[..n];
      if turn !in After(EMPTY, init).state.turns { assert init[..n] == init; }
    }
  }

  /** So an emitted turn event reports exactly the accepted steers that named the turn while its record was open. */
  lemma EmittedSteerCount(facts: seq<Fact>, f: Fact, turn: string, e: Event)
    requires e in Ingest(After(EMPTY, facts).state, f).events && IsTurnEvent(e, turn)
    ensures e.steerCount == AcceptedSteers(facts + [f], turn) - AcceptedSteers(facts[..OpenedAt(facts, turn)], turn)
  {
    assert (facts + [f])[..|facts|] == facts;
    RecordCountsOpenSteers(facts, turn);
    SteersOfOneFact(After(EMPTY, facts).state, f, turn);
  }

  /** The fact answers the request of this key: a steer response or an error. */
  predicate Answers(f: Fact, key: RequestKey) {
    (f.TurnSteerResponse? || f.ErrorResponse?) && (f.connection, f.request) == key
  }

  predicate EmitsSteer(s: State, f: Fact) {
    exists e | e in Ingest(s, f).events :: e.TurnSteerEvent?
  }

  /** The event that reports the request of this key, as the fact answers it. */
  function SteerReport(s: State, f: Fact, key: RequestKey): Event
    requires Answers(f, key) && key in s.requests && key.0 in s.connections
    requires s.requests[key].thread in s.threadMetadata
  {
    TurnSteerEvent(s.connections[key.0], s.threadMetadata[s.requests[key].thread], s.requests[key],
                   if f.ErrorResponse? then None else Some(f.turn), if f.ErrorResponse? then f.reason else None)
  }

  /**
   A steer event is emitted exactly when the fact answers a pending steer request whose connection and thread are known;
   it reports that request, and the request is no longer pending.
   */
  lemma SteerEventConsumesRequest(s: State, f: Fact, key: RequestKey)
    requires Answers(f, key)
    ensures EmitsSteer(s, f) <==>
      IsPending(s, key, true) && key.0 in s.connections && s.requests[key].thread in s.threadMetadata
    ensures key !in Ingest(s, f).state.requests
    ensures EmitsSteer(s, f) ==> Ingest(s, f).events == [SteerReport(s, f, key)]
  {
    if IsPending(s, key, true) && key.0 in s.connections && s.requests[key].thread in s.threadMetadata {
      assert Ingest(s, f).events[0].TurnSteerEvent?;
    }
  }

  /** No other fact emits a steer event. */
  lemma OnlyAnswersEmitSteers(s: State, f: Fact)
    ensures EmitsSteer(s, f) ==> f.TurnSteerResponse? || f.ErrorResponse?
  {
    match f
    case TurnStartResponse(_, _, _) =>
    case _ =>
  }

  function SteerEventsIn(events: seq<Event>): nat {
    if events == [] then 0
    else SteerEventsIn(events[..|events| - 1]) + One(events[|events| - 1].TurnSteerEvent?)
  }

  lemma {:induction false} SteerEventsGrow(events: seq<Event>, more: seq<Event>)
    ensures SteerEventsIn(events + more) == SteerEventsIn(events) + SteerEventsIn(more)
    decreases |more|
  {
    if more == [] {
      assert events + more == events;
    } else {
      assert (events + more)[..|events + more| - 1] == events + more[..|more| - 1];
      SteerEventsGrow(events, more[..|more| - 1]);
    }
  }

  lemma {:induction false} NoSteerEvents(events: seq<Event>)
    requires forall e | e in events :: !e.TurnSteerEvent?
    ensures SteerEventsIn(events) == 0
    decreases |events|
  {
    if events == [] {
    } else {
      NoSteerEvents(events[..|events| - 1]);
    }
  }

  /** A fact emits at most one steer event. */
  lemma SteerEventsOfOne(s: State, f: Fact)
    ensures SteerEventsIn(Ingest(s, f).events) == One(AnswersKnownSteer(s, f))
  {
    OnlyAnswersEmitSteers(s, f);
    if f.TurnSteerResponse? || f.ErrorResponse? { SteerEventConsumesRequest(s, f, (f.connection, f.request)); }
    if AnswersKnownSteer(s, f) {
      assert Ingest(s, f).events[..0] == [];
    } else {
      NoSteerEvents(Ingest(s, f).events);
    }
  }

  /** The facts that answer a pending steer request whose connection and thread are known. */
  function AnsweredSteers(facts: seq<Fact>): nat
    decreases |facts|
  {
    if facts == [] then 0
    else
      var init, f := facts[..|facts| - 1], facts[|facts| - 1];
      AnsweredSteers(init) + One(AnswersKnownSteer(After(EMPTY, init).state, f))
  }

  predicate AnswersKnownSteer(s: State, f: Fact) {
    && (f.TurnSteerResponse? || f.ErrorResponse?)
    && IsPending(s, (f.connection, f.request), true)
    && f.connection in s.connections && s.requests[(f.connection, f.request)].thread in s.threadMetadata
  }

  /** Over a whole run there are exactly as many steer events as answers to pending steer requests that are known. */
  lemma {:induction false} SteerEventsAreAnswers(facts: seq<Fact>)
    ensures SteerEventsIn(After(EMPTY, facts).events) == AnsweredSteers(facts)
    decreases |facts|
  {
    if facts == [] {
    } else {
      var init, f := facts[..|facts| - 1], facts[|facts| - 1];
      var before := After(EMPTY, init);
      SteerEventsAreAnswers(init);
      SteerEventsGrow(before.events, Ingest(before.state, f).events);
      SteerEventsOfOne(before.state, f);
    }
  }

  function SteerRequests(facts: seq<Fact>, key: RequestKey): nat {
    if facts == [] then 0
    else
      var f := facts[|facts| - 1];
      SteerRequests(facts[..|facts| - 1], key) + One(f.TurnSteerRequest? && (f.connection, f.request) == key)
  }

  /** The steer events emitted in answer to requests of this key. */
  ghost function SteerEventsFor(facts: seq<Fact>, key: RequestKey): nat
    decreases |facts|
  {
    if facts == [] then 0
    else var init, last := facts[..|facts| - 1], facts[|facts| - 1];
         SteerEventsFor(init, key) + One(Answers(last, key) && EmitsSteer(After(EMPTY, init).state, last))
  }

  lemma FillingAddsNoRequest(s: State, f: Fact, key: RequestKey)
    requires FillsRecord(f)
    ensures var after := Ingest(s, f).state.requests;
      key in after ==> key in s.requests && after[key] == s.requests[key]
  {
  }

  /** Nothing but a request adds one. */
  lemma OnlyRequestsAdd(s: State, f: Fact, key: RequestKey)
    ensures var after := Ingest(s, f).state.requests;
      key in after ==>
        || (key in s.requests && after[key] == s.requests[key])
        || ((f.TurnStartRequest? || f.TurnSteerRequest?) && (f.connection, f.request) == key)
  {
    if FillsRecord(f) { FillingAddsNoRequest(s, f, key); }
  }

  /** A request becomes pending only when it is made. */
  lemma PendingOnlyIfMade(s: State, f: Fact, key: RequestKey)
    ensures IsPending(Ingest(s, f).state, key, true) ==>
      IsPending(s, key, true) || (f.TurnSteerRequest? && (f.connection, f.request) == key)
  {
    OnlyRequestsAdd(s, f, key);
  }

  lemma SteerPendingAfter(s: State, f: Fact, key: RequestKey)
    ensures One(Answers(f, key) && EmitsSteer(s, f)) + One(IsPending(Ingest(s, f).state, key, true))
         <= One(IsPending(s, key, true)) + One(f.TurnSteerRequest? && (f.connection, f.request) == key)
  {
    PendingOnlyIfMade(s, f, key);
    if Answers(f, key) { SteerEventConsumesRequest(s, f, key); }
  }

  /**
   Over a whole run, the steer events of a connection's request id never outnumber the steer requests made under it.
   */
  lemma {:induction false} SteerEventsWithinRequests(facts: seq<Fact>, key: RequestKey)
    ensures SteerEventsFor(facts, key) + One(IsPending(After(EMPTY, facts).state, key, true))
         <= SteerRequests(facts, key)
    decreases |facts|
  {
    if facts == [] {
    } else {
      var init, last := facts[..|facts| - 1], facts[|facts| - 1];
      SteerEventsWithinRequests(init, key);
      SteerPendingAfter(After(EMPTY, init).state, last, key);
    }
  }

  /** The record of the turn, its connection and its thread are all known: its event can be made. */
  predicate Reportable(s: State, turn: string) {
    && turn in s.turns && s.turns[turn].thread.Some? && s.turns[turn].images.Some?
    && s.turns[turn].config.Some? && s.turns[turn].completed.Some?
    && s.turns[turn].connection.Some? && s.turns[turn].connection.value in s.connections
    && s.turns[turn].thread.value in s.threadMetadata
  }

  /**
   A fact that fills the record of a turn leaves no event unmade that could be made: it emits the turn's event and
   closes the record, or it emits nothing and the record, still open, does not suffice.
   */
  lemma NothingLeftUnreported(s: State, f: Fact, turn: string)
    requires f.TurnCompleted? || f.ResolvedConfig? || f.TokenUsage? || AcceptsStart(s, f, turn)
    requires f.turn == turn
    ensures var r := Ingest(s, f);
      if turn in r.state.turns then r.events == [] && !Reportable(r.state, turn)
      else |r.events| == 1 && IsTurnEvent(r.events[0], turn)
  {
  }

  // The reducer.

  lemma ReportedOneMore(kind: ReportKind, reports: seq<string>, i: nat)
    requires i < |reports|
    ensures ReportedEvents(kind, reports[..i + 1])
         == ReportedEvents(kind, reports[..i]) + [ReportedEvent(kind, reports[i])]
  {
    forall k | 0 <= k < i
      ensures reports[..i + 1][k] == reports[..i][k]
    {
    }
  }

  class AnalyticsReducer {
    var requests: map<RequestKey, Pending>
    var turns: map<string, TurnRecord>
    var connections: map<nat, Client>
    var threadConnections: map<string, nat>
    var threadMetadata: map<string, ThreadMetadata>

    ghost function View(): State
      reads this
    {
      State(requests, turns, connections, threadConnections, threadMetadata)
    }

    constructor ()
      ensures View() == EMPTY
    {
      requests, turns, connections, threadConnections, threadMetadata := map[], map[], map[], map[], map[];
    }

    /** `requests.remove`: the pending request of the key, whatever its kind, if there is one. */
    method TakeRequest(key: RequestKey) returns (pending: Option<Pending>)
      modifies `requests
      ensures View() == Consumed(old(View()), key)
      ensures pending == if key in old(requests) then Some(old(requests)[key]) else None
    {
      if key in requests {
        pending := Some(requests[key]);
        requests := requests - {key};
      } else {
        pending := None;
        assert requests - {key} == requests;
      }
    }

    /** `maybe_emit_turn_event`. */
    method MaybeEmitTurnEvent(turn: string) returns (out: seq<Event>)
      modifies `turns
      ensures Reaction(View(), out) == MaybeEmit(old(View()), turn)
    {
      out := [];
      if turn !in turns {
        return;
      }
      var r := turns[turn];
      if r.thread.None? || r.images.None? || r.config.None? || r.completed.None? {
        return;
      }
      if r.connection.None? || r.connection.value !in connections {
        return;
      }
      if r.thread.value !in threadMetadata {
        return;
      }
      out := [TurnEvent(turn, connections[r.connection.value], threadMetadata[r.thread.value], r.thread.value,
                        r.images.value, r.config.value, r.completed.value, r.startedAt, r.usage, r.steerCount)];
      turns := turns - {turn};
    }

    /** `turns.entry(..).or_insert(..)`. */
    method OpenRecord(turn: string)
      modifies `turns
      ensures turn in turns && turns[turn] == RecordOf(old(View()), turn)
      ensures View() == WithRecord(old(View()), turn, turns[turn])
    {
      if turn !in turns { turns := turns[turn := BLANK]; }
    }

    method EmitTurnSteerEvent(connection: nat, pending: Pending, accepted: Option<string>, reason: Option<string>)
      returns (out: seq<Event>)
      requires pending.TurnSteer?
      ensures out == SteerEvents(View(), connection, pending, accepted, reason)
    {
      out := [];
      if connection !in connections || pending.thread !in threadMetadata {
        return;
      }
      out := [TurnSteerEvent(connections[connection], threadMetadata[pending.thread], pending, accepted, reason)];
    }

    method IngestTurnStartResponse(key: RequestKey, turn: string) returns (out: seq<Event>)
      modifies `requests, `turns
      ensures Reaction(View(), out) == OnStartResponse(old(View()), key, turn)
    {
      var pending := TakeRequest(key);
      if pending.None? || pending.value.TurnSteer? {
        return [];
      }
      OpenRecord(turn);
      turns := turns[turn := turns[turn].(
        connection := Some(key.0), thread := Some(pending.value.thread), images := Some(pending.value.images))];
      assert View() == WithRecord(Consumed(old(View()), key), turn, turns[turn]);
      out := MaybeEmitTurnEvent(turn);
    }

    method IngestTurnSteerResponse(key: RequestKey, turn: string) returns (out: seq<Event>)
      modifies `requests, `turns
      ensures Reaction(View(), out) == OnSteerResponse(old(View()), key, turn)
    {
      var pending := TakeRequest(key);
      if pending.None? || pending.value.TurnStart? {
        return [];
      }
      if turn in turns { turns := turns[turn := turns[turn].(steerCount := turns[turn].steerCount + 1)]; }
      out := EmitTurnSteerEvent(key.0, pending.value, Some(turn), None);
    }

    method IngestErrorResponse(key: RequestKey, reason: Option<string>) returns (out: seq<Event>)
      modifies `requests
      ensures Reaction(View(), out) == OnError(old(View()), key, reason)
    {
      var pending := TakeRequest(key);
      if pending.None? || pending.value.TurnStart? {
        return [];
      }
      out := EmitTurnSteerEvent(key.0, pending.value, None, reason);
    }

    method IngestThread(connection: nat, thread: string, model: string, metadata: ThreadMetadata)
      returns (out: seq<Event>)
      modifies `threadConnections, `threadMetadata
      ensures Reaction(View(), out) == Ingest(old(View()), ThreadResponse(connection, thread, model, metadata))
    {
      if connection !in connections {
        return [];
      }
      threadConnections := threadConnections[thread := connection];
      threadMetadata := threadMetadata[thread := metadata];
      out := [ThreadInitialized(thread, connections[connection], model, metadata)];
    }

    method IngestTurnStarted(turn: string, at: Option<int>)
      modifies `turns
      ensures Reaction(View(), []) == Ingest(old(View()), TurnStarted(turn, at))
    {
      OpenRecord(turn);
      turns := turns[turn := turns[turn].(startedAt := AsU64(at))];
    }

    method IngestTurnCompleted(f: Fact) returns (out: seq<Event>)
      requires f.TurnCompleted?
      modifies `turns
      ensures Reaction(View(), out) == Ingest(old(View()), f)
    {
      OpenRecord(f.turn);
      turns := turns[f.turn := turns[f.turn].(completed := Some(CompletionOf(f)))];
      assert View() == WithRecord(old(View()), f.turn, turns[f.turn]);
      out := MaybeEmitTurnEvent(f.turn);
    }

    method IngestTurnResolvedConfig(turn: string, thread: string, images: nat, settings: string)
      returns (out: seq<Event>)
      modifies `turns
      ensures Reaction(View(), out) == Ingest(old(View()), ResolvedConfig(turn, thread, images, settings))
    {
      OpenRecord(turn);
      turns := turns[turn := turns[turn].(thread := Some(thread), images := Some(images), config := Some(settings))];
      assert View() == WithRecord(old(View()), turn, turns[turn]);
      out := MaybeEmitTurnEvent(turn);
    }

    method IngestTurnTokenUsage(turn: string, thread: string, usage: string) returns (out: seq<Event>)
      modifies `turns
      ensures Reaction(View(), out) == Ingest(old(View()), TokenUsage(turn, thread, usage))
    {
      OpenRecord(turn);
      turns := turns[turn := turns[turn].(thread := Some(thread), usage := Some(usage))];
      assert View() == WithRecord(old(View()), turn, turns[turn]);
      out := MaybeEmitTurnEvent(turn);
    }

    /** `ingest_compaction` and `ingest_guardian_review`, which only look things up. */
    method IngestReport(f: Fact) returns (out: seq<Event>)
      requires f.Compaction? || f.GuardianReview?
      ensures out == ReportEvents(View(), f)
    {
      if f.thread !in threadConnections {
        return [];
      }
      var connection := threadConnections[f.thread];
      if connection !in connections {
        return [];
      }
      if f.GuardianReview? {
        return [GuardianReviewEvent(connections[connection], f.report)];
      }
      if f.thread !in threadMetadata {
        return [];
      }
      out := [CompactionEvent(connections[connection], threadMetadata[f.thread], f.report)];
    }

    /** The facts reported by themselves: one event for each, whatever is in the maps. */
    method IngestReported(kind: ReportKind, reports: seq<string>) returns (out: seq<Event>)
      ensures out == ReportedEvents(kind, reports)
    {
      out := [];
      for i := 0 to |reports|
        invariant out == ReportedEvents(kind, reports[..i])
      {
        ReportedOneMore(kind, reports, i);
        out := out + [ReportedEvent(kind, reports[i])];
      }
      assert reports[..|reports|] == reports;
    }

    /** `ingest`. */
    method IngestFact(f: Fact) returns (out: seq<Event>)
      modifies this
      ensures Reaction(View(), out) == Ingest(old(View()), f)
    {
      out := [];
      match f {
        case Initialize(connection, client) => connections := connections[connection := client];
        case TurnStartRequest(connection, request, thread, images) =>
          requests := requests[(connection, request) := TurnStart(thread, images)];
        case TurnSteerRequest(connection, request, thread, expectedTurn, images, now) =>
          requests := requests[(connection, request) := TurnSteer(thread, expectedTurn, images, now)];
        case ThreadResponse(connection, thread, model, metadata) =>
          out := IngestThread(connection, thread, model, metadata);
        case TurnStartResponse(connection, request, turn) =>
          out := IngestTurnStartResponse((connection, request), turn);
        case TurnSteerResponse(connection, request, turn) =>
          out := IngestTurnSteerResponse((connection, request), turn);
        case ErrorResponse(connection, request, reason) => out := IngestErrorResponse((connection, request), reason);
        case TurnStarted(turn, at) => IngestTurnStarted(turn, at);
        case TurnCompleted(_, _, _, _, _) => out := IngestTurnCompleted(f);
        case ResolvedConfig(turn, thread, images, settings) =>
          out := IngestTurnResolvedConfig(turn, thread, images, settings);
        case TokenUsage(turn, thread, usage) => out := IngestTurnTokenUsage(turn, thread, usage);
        case Compaction(_, _) | GuardianReview(_, _) => out := IngestReport(f);
        case Reported(kind, reports) => out := IngestReported(kind, reports);
        case Ignored =>
      }
    }
  }
}
