/**
 The remote client: a worker that multiplexes request commands over one websocket with an id-keyed table of waiters,
 and the client side that hands out the events buffered while connecting before any later one.
 */
module RemoteClient {
  import opened Prelude

  /** The oneshot channel on which a command waits for its answer; every command makes its own. */
  type Waiter = nat

  datatype Answer =
    | ServerResult(result: string)
    | ServerError(error: string)
    | Duplicate
    | WriteFailed
    | Written
    | ShutDown
    | BrokenPipe

  datatype Sent = Sent(waiter: Waiter, answer: Answer)

  datatype Command =
    | Ask(id: RequestId, waiter: Waiter)
    | Tell(waiter: Waiter)
    | Shutdown(waiter: Waiter)
    | HungUp

  datatype Event = Notified(text: string) | Requested(id: RequestId, name: string) | Disconnected(why: Reason)

  datatype Reason = FailedWrite | InvalidMessage | ClosedByServer(text: string) | TransportFailed | EndOfStream

  /** What the websocket yields. A notification or a request may be one this client does not know. */
  datatype Incoming =
    | Result(id: RequestId, result: string)
    | Error(id: RequestId, error: string)
    | Notice(known: bool, text: string)
    | Request(id: RequestId, name: string, known: bool)
    | Malformed
    | Close(reason: string)
    | NonText
    | Broken
    | End

  /** What the worker's select picks next; `writeOk` is the fate of the write it causes, if it causes one. */
  datatype Input =
    | Commanded(command: Command, writeOk: bool)
    | Received(message: Incoming, writeOk: bool)
    | ConsumerDropped

  /** The worker's state: `refused` holds the answers to commands that came after it ended. */
  datatype Worker = Worker(
    running: bool,
    consumerOpen: bool,
    pending: map<RequestId, Waiter>,
    answers: seq<Sent>,
    refused: seq<Sent>,
    events: seq<Event>
  )

  const FRESH := Worker(true, true, map[], [], [], [])

  function Emit(w: Worker, e: Event): Worker {
    if w.consumerOpen then w.(events := w.events + [e]) else w
  }

  function Reply(w: Worker, waiter: Waiter, answer: Answer): Worker {
    w.(answers := w.answers + [Sent(waiter, answer)])
  }

  /** The worker tells the consumer and leaves its loop. */
  function Quit(w: Worker, why: Reason): Worker {
    Emit(w, Disconnected(why)).(running := false)
  }

  /** An event for the consumer; a consumer that is gone ends the worker. */
  function Hand(w: Worker, e: Event): Worker {
    if w.consumerOpen then Emit(w, e) else w.(running := false)
  }

  function Obey(w: Worker, c: Command, writeOk: bool): Worker {
    match c
    case Ask(id, waiter) =>
      if id in w.pending then Reply(w, waiter, Duplicate)
      else if writeOk then w.(pending := w.pending[id := waiter])
      else Quit(Reply(w, waiter, WriteFailed), FailedWrite)
    case Tell(waiter) => Reply(w, waiter, if writeOk then Written else WriteFailed)
    case Shutdown(waiter) => Reply(w, waiter, ShutDown).(running := false)
    case HungUp => w.(running := false)
  }

  function Settle(w: Worker, id: RequestId, answer: Answer): Worker {
    if id in w.pending then Reply(w, w.pending[id], answer).(pending := w.pending - {id}) else w
  }

  function Take(w: Worker, m: Incoming, writeOk: bool): Worker {
    match m
    case Result(id, result) => Settle(w, id, ServerResult(result))
    case Error(id, error) => Settle(w, id, ServerError(error))
    case Notice(known, text) => if known then Hand(w, Notified(text)) else w
    case Request(id, name, known) =>
      if known then Hand(w, Requested(id, name)) else if writeOk then w else Quit(w, FailedWrite)
    case Malformed => Quit(w, InvalidMessage)
    case Close(reason) => Quit(w, ClosedByServer(if reason == "" then "connection closed" else reason))
    case NonText => w
    case Broken => Quit(w, TransportFailed)
    case End => Quit(w, EndOfStream)
  }

  predicate HasWaiter(i: Input) {
    i.Commanded? && !i.command.HungUp?
  }

  function WaiterOf(i: Input): Waiter
    requires HasWaiter(i)
  {
    i.command.waiter
  }

  function React(w: Worker, i: Input): Worker {
    match i
    case ConsumerDropped => w.(consumerOpen := false)
    case Commanded(c, writeOk) =>
      if w.running then Obey(w, c, writeOk)
      else if HasWaiter(i) then w.(refused := w.refused + [Sent(c.waiter, BrokenPipe)])
      else w
    case Received(m, writeOk) => if w.running then Take(w, m, writeOk) else w
  }

  /** The worker after a run. */
  function After(trace: seq<Input>): Worker
    decreases |trace|
  {
    if trace == [] then FRESH else React(After(trace[..|trace| - 1]), trace[|trace| - 1])
  }

  lemma AfterOneMore(trace: seq<Input>, i: Input)
    ensures After(trace + [i]) == React(After(trace), i)
  {
    assert (trace + [i])[..|trace|] == trace;
  }

  // Exactly one answer.

  function Count(sent: seq<Sent>, waiter: Waiter): nat {
    if sent == [] then 0
    else Count(sent[..|sent| - 1], waiter) + if sent[|sent| - 1].waiter == waiter then 1 else 0
  }

  lemma {:induction false} CountConcat(a: seq<Sent>, b: seq<Sent>, waiter: Waiter)
    ensures Count(a + b, waiter) == Count(a, waiter) + Count(b, waiter)
    decreases |b|
  {
    if b == [] {
      assert a + b == a;
    } else {
      assert (a + b)[..|a + b| - 1] == a + b[..|b| - 1];
      CountConcat(a, b[..|b| - 1], waiter);
    }
  }

  lemma CountOneMore(a: seq<Sent>, s: Sent, waiter: Waiter)
    ensures Count(a + [s], waiter) == Count(a, waiter) + if s.waiter == waiter then 1 else 0
  {
    assert (a + [s])[..|a|] == a;
  }

  /** No two commands share a waiter. */
  ghost predicate OwnWaiters(trace: seq<Input>) {
    forall j, k | 0 <= j < k < |trace| && HasWaiter(trace[j]) && HasWaiter(trace[k]) ::
      WaiterOf(trace[j]) != WaiterOf(trace[k])
  }

  ghost predicate Unused(trace: seq<Input>, waiter: Waiter) {
    forall j | 0 <= j < |trace| && HasWaiter(trace[j]) :: WaiterOf(trace[j]) != waiter
  }

  /** The command at `k` is the request that its id's table entry belongs to. */
  predicate StillWaits(w: Worker, i: Input) {
    HasWaiter(i) && i.command.Ask? && i.command.id in w.pending && w.pending[i.command.id] == i.command.waiter
  }

  /** Every table entry was made by a request of the run. */
  lemma {:induction false} EntryHasRequest(trace: seq<Input>, id: RequestId) returns (k: nat)
    requires id in After(trace).pending
    ensures k < |trace| && trace[k] == Commanded(Ask(id, After(trace).pending[id]), true)
    decreases |trace|
  {
    var init, last := trace[..|trace| - 1], trace[|trace| - 1];
    if id in After(init).pending && After(init).pending[id] == After(trace).pending[id] {
      k := EntryHasRequest(init, id);
    } else {
      k := |trace| - 1;
    }
  }

  /** The input is a reply to a request in the table. */
  predicate Settles(w: Worker, i: Input) {
    w.running && i.Received? && (i.message.Result? || i.message.Error?) && i.message.id in w.pending
  }

  /** How one input changes the number of answers to a waiter. */
  function Added(w: Worker, i: Input, waiter: Waiter): nat {
    if Settles(w, i) then (if w.pending[i.message.id] == waiter then 1 else 0)
    else if HasWaiter(i) && WaiterOf(i) == waiter then
      (if w.running && i.command.Ask? && i.command.id !in w.pending && i.writeOk then 0 else 1)
    else 0
  }

  /** The answers a waiter has had. */
  function Had(w: Worker, waiter: Waiter): nat {
    Count(w.answers, waiter) + Count(w.refused, waiter)
  }

  lemma ReplyCounted(w: Worker, to: Waiter, answer: Answer, waiter: Waiter)
    ensures Had(Reply(w, to, answer), waiter) == Had(w, waiter) + if to == waiter then 1 else 0
  {
    CountOneMore(w.answers, Sent(to, answer), waiter);
  }

  lemma AskCounted(w: Worker, id: RequestId, to: Waiter, writeOk: bool, waiter: Waiter)
    requires w.running
    ensures Had(Obey(w, Ask(id, to), writeOk), waiter)
         == Had(w, waiter) + Added(w, Commanded(Ask(id, to), writeOk), waiter)
  {
    if id in w.pending {
      ReplyCounted(w, to, Duplicate, waiter);
    } else if !writeOk {
      ReplyCounted(w, to, WriteFailed, waiter);
    }
  }

  lemma ObeyCounted(w: Worker, c: Command, writeOk: bool, waiter: Waiter)
    requires w.running
    ensures Had(Obey(w, c, writeOk), waiter) == Had(w, waiter) + Added(w, Commanded(c, writeOk), waiter)
  {
    match c
    case Ask(id, to) => AskCounted(w, id, to, writeOk, waiter);
    case Tell(to) => ReplyCounted(w, to, if writeOk then Written else WriteFailed, waiter);
    case Shutdown(to) => ReplyCounted(w, to, ShutDown, waiter);
    case HungUp =>
  }

  lemma TakeCounted(w: Worker, m: Incoming, writeOk: bool, waiter: Waiter)
    requires w.running
    ensures Had(Take(w, m, writeOk), waiter) == Had(w, waiter) + Added(w, Received(m, writeOk), waiter)
  {
    match m
    case Result(id, result) => if id in w.pending { ReplyCounted(w, w.pending[id], ServerResult(result), waiter); }
    case Error(id, error) => if id in w.pending { ReplyCounted(w, w.pending[id], ServerError(error), waiter); }
    case _ =>
  }

  lemma ReactCounted(w: Worker, i: Input, waiter: Waiter)
    ensures Had(React(w, i), waiter) == Had(w, waiter) + Added(w, i, waiter)
  {
    match i
    case ConsumerDropped =>
    case Commanded(c, writeOk) =>
      if w.running { ObeyCounted(w, c, writeOk, waiter); }
      else if HasWaiter(i) { CountOneMore(w.refused, Sent(c.waiter, BrokenPipe), waiter); }
    case Received(m, writeOk) => if w.running { TakeCounted(w, m, writeOk, waiter); }
  }

  lemma {:induction false} UnusedNotAnswered(trace: seq<Input>, waiter: Waiter)
    requires Unused(trace, waiter)
    ensures Had(After(trace), waiter) == 0
    decreases |trace|
  {
    if trace == [] {
    } else {
      var init, last := trace[..|trace| - 1], trace[|trace| - 1];
      UnusedNotAnswered(init, waiter);
      ReactCounted(After(init), last, waiter);
      if Settles(After(init), last) {
        var k := EntryHasRequest(init, last.message.id);
      }
    }
  }

  /** A waiting request is disturbed by nothing but its own reply. */
  lemma ReactWaits(w: Worker, i: Input, asked: Input)
    requires HasWaiter(i) && HasWaiter(asked) ==> WaiterOf(i) != WaiterOf(asked)
    ensures StillWaits(React(w, i), asked) <==>
      StillWaits(w, asked) && !(Settles(w, i) && asked.command.id == i.message.id)
  {
  }

  lemma OneOwner(trace: seq<Input>, j: nat, k: nat)
    requires OwnWaiters(trace) && j < |trace| && k < |trace| && HasWaiter(trace[j]) && HasWaiter(trace[k])
    ensures WaiterOf(trace[j]) == WaiterOf(trace[k]) ==> j == k
  {
    if j < k { assert WaiterOf(trace[j]) != WaiterOf(trace[k]); }
    if k < j { assert WaiterOf(trace[k]) != WaiterOf(trace[j]); }
  }

  /** A table entry that waits with the waiter of a command is the entry of that command. */
  lemma EntryOwner(trace: seq<Input>, id: RequestId, k: nat)
    requires OwnWaiters(trace) && id in After(trace).pending && k < |trace| && HasWaiter(trace[k])
    ensures After(trace).pending[id] == WaiterOf(trace[k]) ==> trace[k].command == Ask(id, WaiterOf(trace[k]))
  {
    var j := EntryHasRequest(trace, id);
    OneOwner(trace, j, k);
  }

  /** The command has been answered once, or is a request waiting in the table. */
  predicate AnsweredOrWaits(w: Worker, asked: Input)
    requires HasWaiter(asked)
  {
    Had(w, WaiterOf(asked)) + (if StillWaits(w, asked) then 1 else 0) == 1
  }

  lemma NewCommandCounted(w: Worker, asked: Input)
    requires HasWaiter(asked) && Had(w, WaiterOf(asked)) == 0 && !StillWaits(w, asked)
    ensures AnsweredOrWaits(React(w, asked), asked)
  {
    ReactCounted(w, asked, WaiterOf(asked));
  }

  lemma OldCommandCounted(w: Worker, i: Input, asked: Input)
    requires HasWaiter(asked) && AnsweredOrWaits(w, asked)
    requires HasWaiter(i) ==> WaiterOf(i) != WaiterOf(asked)
    requires Settles(w, i) && w.pending[i.message.id] == WaiterOf(asked) ==>
      asked.command == Ask(i.message.id, WaiterOf(asked))
    ensures AnsweredOrWaits(React(w, i), asked)
  {
    ReactCounted(w, i, WaiterOf(asked));
    ReactWaits(w, i, asked);
  }

  /** At every moment of every run, a command has been answered once, or is a request waiting in the table. */
  lemma {:induction false} AnsweredOrWaiting(trace: seq<Input>, k: nat)
    requires OwnWaiters(trace) && k < |trace| && HasWaiter(trace[k])
    ensures AnsweredOrWaits(After(trace), trace[k])
    decreases |trace|
  {
    var init, last := trace[..|trace| - 1], trace[|trace| - 1];
    if k == |trace| - 1 {
      UnusedNotAnswered(init, WaiterOf(last));
      if StillWaits(After(init), last) { var j := EntryHasRequest(init, last.command.id); }
      NewCommandCounted(After(init), last);
    } else {
      assert init[k] == trace[k];
      AnsweredOrWaiting(init, k);
      assert HasWaiter(last) ==> WaiterOf(last) != WaiterOf(trace[k]);
      if Settles(After(init), last) { EntryOwner(init, last.message.id, k); }
      OldCommandCounted(After(init), last, trace[k]);
    }
  }

  // When the worker ends.

  predicate RepliesTo(i: Input, id: RequestId) {
    i.Received? && (i.message.Result? || i.message.Error?) && i.message.id == id
  }

  predicate AsksFor(i: Input, id: RequestId) {
    i.Commanded? && i.command.Ask? && i.command.id == id && i.writeOk
  }

  /** A request for the id has been written, and no reply to it has come since. */
  predicate Awaited(trace: seq<Input>, id: RequestId) {
    if trace == [] then false
    else
      var last := trace[|trace| - 1];
      !RepliesTo(last, id) && (AsksFor(last, id) || Awaited(trace[..|trace| - 1], id))
  }

  /**
   The input that follows `front` is one that ends a worker: a shutdown or a hang-up; a message that cannot be read, or
   that the connection is over; the failed write of a request that is no duplicate, or of the rejection of an unknown
   one; an event for a consumer that is gone.
   */
  predicate EndsWorker(front: seq<Input>, i: Input) {
    || (i.Commanded? && (i.command.Shutdown? || i.command.HungUp?))
    || (i.Received? && (i.message.Malformed? || i.message.Close? || i.message.Broken? || i.message.End?))
    || (i.Commanded? && i.command.Ask? && !i.writeOk && !Awaited(front, i.command.id))
    || (i.Received? && i.message.Request? && !i.message.known && !i.writeOk)
    || (i.Received? && (i.message.Notice? || i.message.Request?) && i.message.known && ConsumerDropped in front)
  }

  /** None of the first `n` inputs ends the worker: it reads the next one. */
  ghost predicate Reads(trace: seq<Input>, n: nat)
    requires n <= |trace|
  {
    forall j | 0 <= j < n :: !EndsWorker(trace[..j], trace[j])
  }

  lemma {:induction false} ConsumerHere(trace: seq<Input>)
    ensures After(trace).consumerOpen <==> ConsumerDropped !in trace
    decreases |trace|
  {
    if trace == [] {
    } else {
      ConsumerHere(trace[..|trace| - 1]);
      assert trace == trace[..|trace| - 1] + [trace[|trace| - 1]];
    }
  }

  lemma PendingOneMore(w: Worker, i: Input, id: RequestId)
    ensures !w.running ==> !React(w, i).running
    ensures React(w, i).running ==>
      (id in React(w, i).pending <==> !RepliesTo(i, id) && (AsksFor(i, id) || id in w.pending))
  {
  }

  lemma {:induction false} TableAwaits(trace: seq<Input>, id: RequestId)
    requires After(trace).running
    ensures id in After(trace).pending <==> Awaited(trace, id)
    decreases |trace|
  {
    if trace == [] {
    } else {
      var init, last := trace[..|trace| - 1], trace[|trace| - 1];
      PendingOneMore(After(init), last, id);
      TableAwaits(init, id);
    }
  }

  lemma EndsIff(front: seq<Input>, i: Input)
    requires After(front).running
    ensures React(After(front), i).running <==> !EndsWorker(front, i)
  {
    ConsumerHere(front);
    if i.Commanded? && i.command.Ask? { TableAwaits(front, i.command.id); }
  }

  lemma {:induction false} ReadsIff(trace: seq<Input>, n: nat)
    requires n <= |trace|
    ensures After(trace[..n]).running <==> Reads(trace, n)
    decreases n
  {
    if n == 0 {
      assert trace[..0] == [];
    } else {
      ReadsIff(trace, n - 1);
      assert trace[..n][..n - 1] == trace[..n - 1];
      if Reads(trace, n - 1) { EndsIff(trace[..n - 1], trace[n - 1]); }
    }
  }

  /** When the worker ends, from the inputs alone: it runs exactly as long as none of them is one that ends it. */
  lemma RunsUntilEnd(trace: seq<Input>)
    ensures After(trace).running <==> forall k | 0 <= k < |trace| :: !EndsWorker(trace[..k], trace[k])
  {
    assert trace[..|trace|] == trace;
    ReadsIff(trace, |trace|);
  }

  /** How many inputs the worker reads before the one that ends it; all of them while it runs. */
  function Lifetime(trace: seq<Input>): (n: nat)
    ensures n <= |trace| && Reads(trace, n) && (n < |trace| ==> EndsWorker(trace[..n], trace[n]))
  {
    if trace == [] then 0
    else
      var init := trace[..|trace| - 1];
      var n := Lifetime(init);
      assert forall j: nat | j < |init| :: trace[..j] == init[..j] && trace[j] == init[j];
      if n < |init| then n
      else if EndsWorker(init, trace[|init|]) then n
      else n + 1
  }

  lemma LifetimeIs(trace: seq<Input>, n: nat)
    requires n <= |trace|
    ensures Reads(trace, n) <==> n <= Lifetime(trace)
  {
  }

  // Which answer.

  /** The reactions to a stretch of inputs, first to last. */
  function ReactAll(w: Worker, inputs: seq<Input>): Worker
    decreases |inputs|
  {
    if inputs == [] then w else ReactAll(React(w, inputs[0]), inputs[1..])
  }

  lemma {:induction false} AfterSplit(front: seq<Input>, back: seq<Input>)
    ensures After(front + back) == ReactAll(After(front), back)
    decreases |back|
  {
    if back == [] {
      assert front + back == front;
    } else {
      assert front + back == front + [back[0]] + back[1..];
      AfterOneMore(front, back[0]);
      AfterSplit(front + [back[0]], back[1..]);
    }
  }

  /** The first reply for `id` among the inputs; broken pipe when there is none. */
  function FirstReply(inputs: seq<Input>, id: RequestId): Answer {
    if inputs == [] then BrokenPipe
    else if RepliesTo(inputs[0], id) then
      (match inputs[0].message
       case Result(_, result) => ServerResult(result)
       case Error(_, error) => ServerError(error))
    else FirstReply(inputs[1..], id)
  }

  /**
   The answer a command must get, from the inputs alone: a broken pipe after the end of the worker, and otherwise, for a
   request, by whether its id is awaited already, whether it can be written, and the first reply before the end.
   */
  function OutcomeAt(trace: seq<Input>, k: nat): Answer
    requires k < |trace| && HasWaiter(trace[k])
  {
    if Lifetime(trace) < k then BrokenPipe
    else
      match trace[k].command
      case Ask(id, _) =>
        if Awaited(trace[..k], id) then Duplicate
        else if !trace[k].writeOk then WriteFailed
        else if Lifetime(trace) == k then BrokenPipe
        else FirstReply(trace[k + 1..Lifetime(trace)], id)
      case Tell(_) => if trace[k].writeOk then Written else WriteFailed
      case Shutdown(_) => ShutDown
  }

  lemma AnswersStay(w: Worker, i: Input)
    ensures w.answers <= React(w, i).answers && w.refused <= React(w, i).refused
  {
  }

  lemma {:induction false} AllAnswersStay(w: Worker, inputs: seq<Input>)
    ensures w.answers <= ReactAll(w, inputs).answers && w.refused <= ReactAll(w, inputs).refused
    decreases |inputs|
  {
    if inputs == [] {
    } else {
      AnswersStay(w, inputs[0]);
      AllAnswersStay(React(w, inputs[0]), inputs[1..]);
    }
  }

  lemma {:induction false} StoppedStays(w: Worker, inputs: seq<Input>)
    requires !w.running
    ensures !ReactAll(w, inputs).running && ReactAll(w, inputs).answers == w.answers
    ensures ReactAll(w, inputs).pending == w.pending && ReactAll(w, inputs).events == w.events
    decreases |inputs|
  {
    if inputs == [] {
    } else {
      StoppedStays(React(w, inputs[0]), inputs[1..]);
    }
  }

  /** While the worker runs, a waiting request gets the first reply for its id; without one it is still waiting. */
  lemma {:induction false} FirstReplyReached(w: Worker, inputs: seq<Input>, asked: Input)
    requires StillWaits(w, asked) && Unused(inputs, WaiterOf(asked)) && ReactAll(w, inputs).running
    ensures var end, answer := ReactAll(w, inputs), FirstReply(inputs, asked.command.id);
      Sent(WaiterOf(asked), answer) in end.answers || (StillWaits(end, asked) && answer == BrokenPipe)
    decreases |inputs|
  {
    if inputs == [] {
    } else {
      var i, next := inputs[0], React(w, inputs[0]);
      if !w.running { StoppedStays(w, inputs); }
      if RepliesTo(i, asked.command.id) {
        assert Sent(WaiterOf(asked), FirstReply(inputs, asked.command.id)) == next.answers[|next.answers| - 1];
        AllAnswersStay(next, inputs[1..]);
      } else {
        assert HasWaiter(inputs[0]) ==> WaiterOf(inputs[0]) != WaiterOf(asked);
        ReactWaits(w, i, asked);
        FirstReplyReached(next, inputs[1..], asked);
      }
    }
  }

  /** What ends the worker is no reply, and after it a waiting request only waits. */
  lemma {:induction false} WaitsOn(w: Worker, inputs: seq<Input>, asked: Input)
    requires StillWaits(w, asked) && Unused(inputs, WaiterOf(asked))
    requires !w.running || (inputs != [] && !React(w, inputs[0]).running)
    ensures StillWaits(ReactAll(w, inputs), asked)
  {
    if inputs == [] {
    } else {
      assert HasWaiter(inputs[0]) ==> WaiterOf(inputs[0]) != WaiterOf(asked);
      ReactWaits(w, inputs[0], asked);
      StoppedStays(React(w, inputs[0]), inputs[1..]);
    }
  }

  /** The request was written; what follows is a stretch that the worker reads, and then nothing, or its end. */
  lemma WrittenOutcome(w: Worker, read: seq<Input>, rest: seq<Input>, asked: Input)
    requires StillWaits(w, asked) && Unused(read, WaiterOf(asked)) && Unused(rest, WaiterOf(asked))
    requires ReactAll(w, read).running && (rest != [] ==> !React(ReactAll(w, read), rest[0]).running)
    ensures var end, answer := ReactAll(ReactAll(w, read), rest), FirstReply(read, asked.command.id);
      Sent(WaiterOf(asked), answer) in end.answers || (StillWaits(end, asked) && answer == BrokenPipe)
  {
    var mid := ReactAll(w, read);
    FirstReplyReached(w, read, asked);
    AllAnswersStay(mid, rest);
    if rest != [] && StillWaits(mid, asked) { WaitsOn(mid, rest, asked); }
  }

  /** The command goes into the table instead of being answered at once. */
  predicate Tabled(w: Worker, asked: Input) {
    w.running && asked.Commanded? && asked.command.Ask? && asked.command.id !in w.pending && asked.writeOk
  }

  lemma AnsweredAtOnce(trace: seq<Input>, k: nat)
    requires k < |trace| && HasWaiter(trace[k]) && !Tabled(After(trace[..k]), trace[k])
    ensures var w, next := After(trace[..k]), React(After(trace[..k]), trace[k]);
      var sent := Sent(WaiterOf(trace[k]), OutcomeAt(trace, k));
      if w.running then next.answers == w.answers + [sent] else next.refused == w.refused + [sent]
  {
    ReadsIff(trace, k);
    LifetimeIs(trace, k);
    if After(trace[..k]).running && trace[k].command.Ask? { TableAwaits(trace[..k], trace[k].command.id); }
  }

  lemma RunFrom(trace: seq<Input>, k: nat, n: nat)
    requires k <= n <= |trace|
    ensures After(trace[..n]) == ReactAll(After(trace[..k]), trace[k..n])
  {
    assert trace[..k] + trace[k..n] == trace[..n];
    AfterSplit(trace[..k], trace[k..n]);
  }

  lemma RunNext(trace: seq<Input>, k: nat)
    requires k < |trace|
    ensures After(trace[..k + 1]) == React(After(trace[..k]), trace[k])
  {
    assert trace[..k + 1] == trace[..k] + [trace[k]];
    AfterOneMore(trace[..k], trace[k]);
  }

  /** A run in three parts: up to the input at `k`, from there to `n`, and the rest. */
  lemma RunParts(trace: seq<Input>, k: nat, n: nat)
    requires k < n <= |trace|
    ensures After(trace[..n]) == ReactAll(React(After(trace[..k]), trace[k]), trace[k + 1..n])
    ensures After(trace) == ReactAll(After(trace[..n]), trace[n..])
  {
    RunNext(trace, k);
    RunFrom(trace, k + 1, n);
    RunFrom(trace, n, |trace|);
    assert trace[..|trace|] == trace && trace[n..|trace|] == trace[n..];
  }

  lemma LifetimeEnds(trace: seq<Input>)
    ensures var n := Lifetime(trace);
      After(trace[..n]).running && (n < |trace| ==> !React(After(trace[..n]), trace[n]).running)
  {
    var n := Lifetime(trace);
    ReadsIff(trace, n);
    if n < |trace| { EndsIff(trace[..n], trace[n]); }
  }

  lemma TabledOutlives(trace: seq<Input>, k: nat)
    requires k < |trace| && Tabled(After(trace[..k]), trace[k])
    ensures k < Lifetime(trace) && !Awaited(trace[..k], trace[k].command.id)
  {
    TableAwaits(trace[..k], trace[k].command.id);
    ReadsIff(trace, k);
    LifetimeIs(trace, k);
    EndsIff(trace[..k], trace[k]);
  }

  lemma TabledReply(trace: seq<Input>, k: nat)
    requires k < |trace| && HasWaiter(trace[k]) && Tabled(After(trace[..k]), trace[k])
    ensures k < Lifetime(trace)
    ensures OutcomeAt(trace, k) == FirstReply(trace[k + 1..Lifetime(trace)], trace[k].command.id)
  {
    TabledOutlives(trace, k);
  }

  lemma OwnWaiterUnused(trace: seq<Input>, k: nat, from: nat, to: nat)
    requires OwnWaiters(trace) && k < from <= to <= |trace| && HasWaiter(trace[k])
    ensures Unused(trace[from..to], WaiterOf(trace[k]))
  {
  }

  lemma TabledWaits(w: Worker, asked: Input)
    requires HasWaiter(asked) && Tabled(w, asked)
    ensures StillWaits(React(w, asked), asked)
  {
  }

  lemma TabledRun(trace: seq<Input>, k: nat, n: nat)
    requires k < n == Lifetime(trace)
    ensures var mid := ReactAll(React(After(trace[..k]), trace[k]), trace[k + 1..n]);
      && mid.running && (trace[n..] != [] ==> !React(mid, trace[n..][0]).running)
      && After(trace) == ReactAll(mid, trace[n..])
  {
    LifetimeEnds(trace);
    RunParts(trace, k, n);
  }

  lemma TabledOutcome(trace: seq<Input>, k: nat)
    requires OwnWaiters(trace) && k < |trace| && HasWaiter(trace[k]) && Tabled(After(trace[..k]), trace[k])
    ensures var w, sent := After(trace), Sent(WaiterOf(trace[k]), OutcomeAt(trace, k));
      sent in w.answers || (StillWaits(w, trace[k]) && sent.answer == BrokenPipe)
  {
    var n := Lifetime(trace);
    var written := React(After(trace[..k]), trace[k]);
    TabledWaits(After(trace[..k]), trace[k]);
    TabledReply(trace, k);
    TabledRun(trace, k, n);
    var read, rest := trace[k + 1..n], trace[n..];
    OwnWaiterUnused(trace, k, k + 1, n);
    OwnWaiterUnused(trace, k, n, |trace|);
    assert trace[n..|trace|] == rest;
    WrittenOutcome(written, read, rest, trace[k]);
  }

  lemma AtOnceOutcome(trace: seq<Input>, k: nat)
    requires k < |trace| && HasWaiter(trace[k]) && !Tabled(After(trace[..k]), trace[k])
    ensures var w, sent := After(trace), Sent(WaiterOf(trace[k]), OutcomeAt(trace, k));
      sent in w.answers || sent in w.refused
  {
    var next, sent := React(After(trace[..k]), trace[k]), Sent(WaiterOf(trace[k]), OutcomeAt(trace, k));
    assert sent in next.answers || sent in next.refused by { AnsweredAtOnce(trace, k); }
    RunParts(trace, k, |trace|);
    assert trace[k + 1..|trace|] == trace[k + 1..] && trace[..|trace|] == trace;
    AllAnswersStay(next, trace[k + 1..]);
  }

  /**
   Every command gets the answer the inputs call for, unless it is a request still waiting that no reply ever reaches.
   */
  lemma OutcomeReached(trace: seq<Input>, k: nat)
    requires OwnWaiters(trace) && k < |trace| && HasWaiter(trace[k])
    ensures var w, sent := After(trace), Sent(WaiterOf(trace[k]), OutcomeAt(trace, k));
      sent in w.answers || sent in w.refused || (StillWaits(w, trace[k]) && sent.answer == BrokenPipe)
  {
    if Tabled(After(trace[..k]), trace[k]) { TabledOutcome(trace, k); } else { AtOnceOutcome(trace, k); }
  }

  // The table.

  /** The request at `k` was written for `id`. */
  ghost predicate WrittenAt(trace: seq<Input>, k: nat, id: RequestId, waiter: Waiter)
    requires k < |trace|
  {
    trace[k] == Commanded(Ask(id, waiter), true) && Reads(trace, k) && !Awaited(trace[..k], id)
  }

  ghost predicate RepliedAt(trace: seq<Input>, j: nat, id: RequestId)
    requires j < |trace|
  {
    RepliesTo(trace[j], id) && Reads(trace, j)
  }

  /** The request at `k` was written and no reply for its id has come since. */
  ghost predicate Outstanding(trace: seq<Input>, k: nat, id: RequestId, waiter: Waiter)
    requires k < |trace|
  {
    WrittenAt(trace, k, id, waiter) && forall j | k < j < |trace| :: !RepliedAt(trace, j, id)
  }

  lemma OutstandingOneMore(trace: seq<Input>, k: nat, id: RequestId, waiter: Waiter)
    requires k < |trace| - 1
    ensures Outstanding(trace, k, id, waiter)
       <==> Outstanding(trace[..|trace| - 1], k, id, waiter) && !RepliedAt(trace, |trace| - 1, id)
  {
    var init := trace[..|trace| - 1];
    assert forall j: nat | j < |init| :: init[..j] == trace[..j] && init[j] == trace[j];
    assert forall j: nat | j < |init| :: Reads(init, j) == Reads(trace, j);
    assert forall j: nat | j < |init| :: RepliedAt(init, j, id) == RepliedAt(trace, j, id);
    assert WrittenAt(init, k, id, waiter) == WrittenAt(trace, k, id, waiter);
  }

  ghost predicate SomeOutstanding(trace: seq<Input>, id: RequestId, waiter: Waiter) {
    exists k: nat :: k < |trace| && Outstanding(trace, k, id, waiter)
  }

  /** A reply to `id` settles it; a request written for `id` makes it outstanding; nothing else matters. */
  lemma SomeOutstandingOneMore(trace: seq<Input>, id: RequestId, waiter: Waiter)
    requires trace != []
    ensures var init, n := trace[..|trace| - 1], |trace| - 1;
      SomeOutstanding(trace, id, waiter)
      <==> WrittenAt(trace, n, id, waiter) || (SomeOutstanding(init, id, waiter) && !RepliedAt(trace, n, id))
  {
    var init, n := trace[..|trace| - 1], |trace| - 1;
    forall k: nat | k < n
      ensures Outstanding(trace, k, id, waiter) <==> Outstanding(init, k, id, waiter) && !RepliedAt(trace, n, id)
    {
      OutstandingOneMore(trace, k, id, waiter);
    }
    if SomeOutstanding(init, id, waiter) && !RepliedAt(trace, n, id) {
      var k: nat :| k < n && Outstanding(init, k, id, waiter);
      assert Outstanding(trace, k, id, waiter);
    }
    if WrittenAt(trace, n, id, waiter) { assert Outstanding(trace, n, id, waiter); }
  }

  predicate Holds(w: Worker, id: RequestId, waiter: Waiter) {
    id in w.pending && w.pending[id] == waiter
  }

  lemma HoldsOneMore(w: Worker, i: Input, id: RequestId, waiter: Waiter)
    ensures Holds(React(w, i), id, waiter) <==>
      (i == Commanded(Ask(id, waiter), true) && w.running && id !in w.pending)
      || (Holds(w, id, waiter) && !(RepliesTo(i, id) && w.running))
  {
  }

  /** The table holds exactly the requests sent and not yet answered, each with its own waiter. */
  lemma {:induction false} TableIsOutstanding(trace: seq<Input>, id: RequestId, waiter: Waiter)
    ensures Holds(After(trace), id, waiter) <==> SomeOutstanding(trace, id, waiter)
    decreases |trace|
  {
    if trace == [] {
    } else {
      var init, last := trace[..|trace| - 1], trace[|trace| - 1];
      TableIsOutstanding(init, id, waiter);
      SomeOutstandingOneMore(trace, id, waiter);
      HoldsOneMore(After(init), last, id, waiter);
      ReadsIff(trace, |init|);
      if After(init).running { TableAwaits(init, id); }
    }
  }

  // Duplicates.

  /** What a command or a message adds to the answers does not depend on the answers already given. */
  lemma ObeyOnlyAdds(w: Worker, answers: seq<Sent>, c: Command, writeOk: bool)
    requires w.running
    ensures w.answers <= Obey(w, c, writeOk).answers
    ensures Obey(w.(answers := answers), c, writeOk)
         == Obey(w, c, writeOk).(answers := answers + Obey(w, c, writeOk).answers[|w.answers|..])
  {
    match c
    case Ask(id, waiter) =>
      assert Obey(w, c, writeOk).answers[|w.answers|..]
          == if id in w.pending then [Sent(waiter, Duplicate)] else if writeOk then [] else [Sent(waiter, WriteFailed)];
    case Tell(waiter) =>
      assert Obey(w, c, writeOk).answers[|w.answers|..] == [Sent(waiter, if writeOk then Written else WriteFailed)];
    case Shutdown(waiter) => assert Obey(w, c, writeOk).answers[|w.answers|..] == [Sent(waiter, ShutDown)];
    case HungUp =>
  }

  lemma TakeOnlyAdds(w: Worker, answers: seq<Sent>, m: Incoming, writeOk: bool)
    requires w.running
    ensures w.answers <= Take(w, m, writeOk).answers
    ensures Take(w.(answers := answers), m, writeOk)
         == Take(w, m, writeOk).(answers := answers + Take(w, m, writeOk).answers[|w.answers|..])
  {
    match m
    case Result(id, result) =>
      assert Take(w, m, writeOk).answers[|w.answers|..]
          == if id in w.pending then [Sent(w.pending[id], ServerResult(result))] else [];
    case Error(id, error) =>
      assert Take(w, m, writeOk).answers[|w.answers|..]
          == if id in w.pending then [Sent(w.pending[id], ServerError(error))] else [];
    case _ =>
  }

  lemma AnswersOnlyGrow(w: Worker, answers: seq<Sent>, i: Input)
    ensures w.answers <= React(w, i).answers
    ensures React(w.(answers := answers), i)
         == React(w, i).(answers := answers + React(w, i).answers[|w.answers|..])
  {
    match i
    case ConsumerDropped =>
    case Commanded(c, writeOk) => if w.running { ObeyOnlyAdds(w, answers, c, writeOk); }
    case Received(m, writeOk) => if w.running { TakeOnlyAdds(w, answers, m, writeOk); }
  }

  /** The same run with one answer more, given after the first `n`. */
  predicate SameBut(w: Worker, with: Worker, n: nat, extra: Sent) {
    n <= |w.answers| && with == w.(answers := w.answers[..n] + [extra] + w.answers[n..])
  }

  lemma InsertedThenAppended(answers: seq<Sent>, n: nat, extra: Sent, added: seq<Sent>)
    requires n <= |answers|
    ensures answers[..n] + [extra] + answers[n..] + added
         == (answers + added)[..n] + [extra] + (answers + added)[n..]
  {
  }

  lemma SameButStep(w: Worker, with: Worker, n: nat, extra: Sent, i: Input)
    requires SameBut(w, with, n, extra)
    ensures SameBut(React(w, i), React(with, i), n, extra)
  {
    var next := React(w, i);
    AnswersOnlyGrow(w, with.answers, i);
    assert next.answers == w.answers + next.answers[|w.answers|..];
    InsertedThenAppended(w.answers, n, extra, next.answers[|w.answers|..]);
  }

  lemma {:induction false} SameButKept(w: Worker, with: Worker, n: nat, extra: Sent, inputs: seq<Input>)
    requires SameBut(w, with, n, extra)
    ensures SameBut(ReactAll(w, inputs), ReactAll(with, inputs), n, extra)
    decreases |inputs|
  {
    if inputs == [] {
    } else {
      SameButStep(w, with, n, extra, inputs[0]);
      SameButKept(React(w, inputs[0]), React(with, inputs[0]), n, extra, inputs[1..]);
    }
  }

  /**
   A duplicate id disturbs nobody: taking the duplicate request out of a run changes nothing, from there to the end,
   but the one duplicate-id answer to its own waiter.
   */
  lemma DuplicateDisturbsNobody(front: seq<Input>, duplicate: Input, back: seq<Input>)
    requires HasWaiter(duplicate) && duplicate.command.Ask?
    requires Reads(front, |front|) && Awaited(front, duplicate.command.id)
    ensures SameBut(After(front + back), After(front + [duplicate] + back), |After(front).answers|,
                    Sent(WaiterOf(duplicate), Duplicate))
  {
    assert front[..|front|] == front;
    ReadsIff(front, |front|);
    TableAwaits(front, duplicate.command.id);
    AfterSplit(front, back);
    AfterSplit(front + [duplicate], back);
    AfterOneMore(front, duplicate);
    SameButKept(After(front), React(After(front), duplicate), |After(front).answers|,
                Sent(WaiterOf(duplicate), Duplicate), back);
  }

  // Events.

  /** The event a message carries, if the client knows it. */
  function EventOf(m: Incoming): seq<Event> {
    match m
    case Notice(known, text) => if known then [Notified(text)] else []
    case Request(id, name, known) => if known then [Requested(id, name)] else []
    case _ => []
  }

  function Arrivals(inputs: seq<Input>): seq<Event> {
    if inputs == [] then []
    else
      Arrivals(inputs[..|inputs| - 1]) + Arrival(inputs[|inputs| - 1])
  }

  /** What the consumer is told of the input that ends the worker: nothing when its own side asked for the end. */
  function Ending(i: Input): seq<Event> {
    match i
    case Commanded(Ask(_, _), _) => [Disconnected(FailedWrite)]
    case Received(Request(_, _, _), _) => [Disconnected(FailedWrite)]
    case Received(Malformed, _) => [Disconnected(InvalidMessage)]
    case Received(Close(reason), _) =>
      [Disconnected(ClosedByServer(if reason == "" then "connection closed" else reason))]
    case Received(Broken, _) => [Disconnected(TransportFailed)]
    case Received(End, _) => [Disconnected(EndOfStream)]
    case _ => []
  }

  function Arrival(i: Input): seq<Event> {
    if i.Received? then EventOf(i.message) else []
  }

  lemma ReactEvents(w: Worker, i: Input)
    requires w.running && React(w, i).consumerOpen
    ensures React(w, i).events == w.events + if React(w, i).running then Arrival(i) else Ending(i)
  {
  }

  lemma StoppedEvents(w: Worker, i: Input)
    requires !w.running
    ensures !React(w, i).running && React(w, i).events == w.events
  {
  }

  /** The events a run calls for: the arrivals the worker reads, and its ending, if it has ended. */
  function EventsDue(trace: seq<Input>): seq<Event> {
    var n := Lifetime(trace);
    Arrivals(trace[..n]) + if n < |trace| then Ending(trace[n]) else []
  }

  lemma DueWhileRunning(trace: seq<Input>)
    requires trace != [] && After(trace[..|trace| - 1]).running
    ensures var init, last := trace[..|trace| - 1], trace[|trace| - 1];
      && EventsDue(init) == Arrivals(init)
      && EventsDue(trace) == Arrivals(init) + if After(trace).running then Arrival(last) else Ending(last)
  {
    var init := trace[..|trace| - 1];
    assert init[..|init|] == init && trace[..|trace|] == trace;
    ReadsIff(init, |init|);
    LifetimeIs(init, |init|);
    EndsIff(init, trace[|init|]);
    assert Lifetime(trace) == if After(trace).running then |trace| else |init|;
  }

  lemma DueOnceStopped(trace: seq<Input>)
    requires trace != [] && !After(trace[..|trace| - 1]).running
    ensures EventsDue(trace) == EventsDue(trace[..|trace| - 1])
  {
    var init := trace[..|trace| - 1];
    assert init[..|init|] == init;
    ReadsIff(init, |init|);
    LifetimeIs(init, |init|);
    assert init[..Lifetime(init)] == trace[..Lifetime(init)];
  }

  /**
   While the consumer listens, it is sent every event of every message the worker reads, in the order they arrive, and
   then, if the worker has ended, what that ending calls for.
   */
  lemma {:induction false} EventsInArrivalOrder(trace: seq<Input>)
    requires ConsumerDropped !in trace
    ensures After(trace).events == EventsDue(trace)
    decreases |trace|
  {
    if trace == [] {
    } else {
      var init, last := trace[..|trace| - 1], trace[|trace| - 1];
      EventsInArrivalOrder(init);
      ConsumerHere(trace);
      if After(init).running {
        DueWhileRunning(trace);
        ReactEvents(After(init), last);
      } else {
        DueOnceStopped(trace);
        StoppedEvents(After(init), last);
      }
    }
  }

  /** A consumer that is gone is sent nothing more. */
  lemma {:induction false} NothingAfterConsumer(w: Worker, inputs: seq<Input>)
    requires !w.consumerOpen
    ensures ReactAll(w, inputs).events == w.events && !ReactAll(w, inputs).consumerOpen
    decreases |inputs|
  {
    if inputs == [] {
    } else {
      NothingAfterConsumer(React(w, inputs[0]), inputs[1..]);
    }
  }

  lemma NothingAfterDrop(front: seq<Input>, back: seq<Input>)
    ensures After(front + [ConsumerDropped] + back).events == After(front).events
  {
    AfterOneMore(front, ConsumerDropped);
    AfterSplit(front + [ConsumerDropped], back);
    NothingAfterConsumer(After(front + [ConsumerDropped]), back);
  }

  /** So the events sent in a run are those that its inputs up to the end of the consumer call for. */
  lemma EventsSent(front: seq<Input>, back: seq<Input>)
    requires ConsumerDropped !in front
    ensures After(front).events == EventsDue(front)
    ensures After(front + [ConsumerDropped] + back).events == EventsDue(front)
  {
    EventsInArrivalOrder(front);
    NothingAfterDrop(front, back);
  }

  // Connecting.

  /** A message read while connecting; `writeOk` is the fate of the rejection it causes, if it causes one. */
  datatype Frame = Frame(message: Incoming, writeOk: bool)

  datatype ConnectError =
    | CouldNotWrite
    | InvalidReply
    | Rejected(error: string)
    | Aborted(reason: string)
    | Transport
    | UnexpectedEof
    | TimedOut

  const INITIALIZE := StringId("initialize")

  function Buffered(frames: seq<Frame>): seq<Event> {
    if frames == [] then [] else Buffered(frames[..|frames| - 1]) + EventOf(frames[|frames| - 1].message)
  }

  /**
   `initialize_remote_connection`: the events of the messages before the first one that decides, in arrival order. When
   no message decides, the deadline does. `passed` is the number of messages that do not decide: other replies, events,
   frames that are no text, and unknown requests whose rejection was written.
   */
  method Initialize(frames: seq<Frame>, firstWriteOk: bool, lastWriteOk: bool)
    returns (result: Result<seq<Event>, ConnectError>, passed: nat)
    ensures !firstWriteOk ==> result == Err(CouldNotWrite) && passed == 0
    ensures passed <= |frames| && forall j | 0 <= j < passed ::
      var m := frames[j].message;
      || m.NonText? || m.Notice? || (m.Request? && (m.known || frames[j].writeOk))
      || ((m.Result? || m.Error?) && m.id != INITIALIZE)
    ensures firstWriteOk && passed == |frames| ==> result == Err(TimedOut)
    ensures firstWriteOk && passed < |frames| ==>
      match frames[passed].message
      case Result(id, _) =>
        && id == StringId("initialize")
        && result == if lastWriteOk then Ok(Buffered(frames[..passed])) else Err(CouldNotWrite)
      case Error(id, error) => id == StringId("initialize") && result == Err(Rejected(error))
      case Request(_, _, known) => !known && !frames[passed].writeOk && result == Err(CouldNotWrite)
      case Malformed => result == Err(InvalidReply)
      case Close(reason) =>
        result == Err(Aborted(if reason == "" then "connection closed during initialize" else reason))
      case Broken => result == Err(Transport)
      case End => result == Err(UnexpectedEof)
      case _ => false
  {
    passed := 0;
    if !firstWriteOk { return Err(CouldNotWrite), 0; }
    var pendingEvents := [];
    while passed < |frames|
      invariant passed <= |frames| && pendingEvents == Buffered(frames[..passed])
      invariant forall j | 0 <= j < passed ::
        var m := frames[j].message;
        || m.NonText? || m.Notice? || (m.Request? && (m.known || frames[j].writeOk))
        || ((m.Result? || m.Error?) && m.id != INITIALIZE)
    {
      var m := frames[passed].message;
      assert frames[..passed + 1][..passed] == frames[..passed];
      match m {
        case Result(id, _) =>
          if id == INITIALIZE {
            return if lastWriteOk then Ok(pendingEvents) else Err(CouldNotWrite), passed;
          }
        case Error(id, error) => if id == INITIALIZE { return Err(Rejected(error)), passed; }
        case Notice(known, text) => if known { pendingEvents := pendingEvents + [Notified(text)]; }
        case Request(id, name, known) =>
          if known {
            pendingEvents := pendingEvents + [Requested(id, name)];
          } else if !frames[passed].writeOk {
            return Err(CouldNotWrite), passed;
          }
        case Malformed => return Err(InvalidReply), passed;
        case NonText =>
        case Close(reason) =>
          return Err(Aborted(if reason == "" then "connection closed during initialize" else reason)), passed;
        case Broken => return Err(Transport), passed;
        case End => return Err(UnexpectedEof), passed;
      }
      passed := passed + 1;
    }
    result := Err(TimedOut);
  }

  // The running client.

  /** Broken-pipe answers, one to each waiter in the table. */
  ghost predicate Drains(drained: seq<Sent>, table: map<RequestId, Waiter>) {
    && (forall id | id in table :: Count(drained, table[id]) == 1 && Sent(table[id], BrokenPipe) in drained)
    && (forall waiter | waiter !in table.Values :: Count(drained, waiter) == 0)
  }

  /** Different ids wait with different waiters. */
  ghost predicate Injective(table: map<RequestId, Waiter>) {
    forall a, b | a in table && b in table && a != b :: table[a] != table[b]
  }

  /** One more waiter drained. */
  lemma DrainsOneMore(drained: seq<Sent>, table: map<RequestId, Waiter>, id: RequestId)
    requires id in table && Drains(drained, table - {id}) && Injective(table)
    ensures Drains(drained + [Sent(table[id], BrokenPipe)], table)
  {
    var rest, sent := table - {id}, Sent(table[id], BrokenPipe);
    forall waiter
      ensures Count(drained + [sent], waiter) == Count(drained, waiter) + if waiter == table[id] then 1 else 0
    {
      CountOneMore(drained, sent, waiter);
    }
    assert table[id] !in rest.Values;
    assert sent in drained + [sent];
    forall other | other in table && other != id
      ensures Count(drained + [sent], table[other]) == 1 && Sent(table[other], BrokenPipe) in drained + [sent]
    {
      assert other in rest && rest[other] == table[other];
      assert Sent(rest[other], BrokenPipe) in drained;
    }
    assert forall waiter | waiter in rest.Values :: waiter in table.Values;
  }

  /** Of the table, the entries in `left` are still to be drained and the others have been. */
  ghost predicate Draining(drained: seq<Sent>, table: map<RequestId, Waiter>, left: map<RequestId, Waiter>) {
    (forall id | id in left :: id in table && left[id] == table[id]) && Drains(drained, table - left.Keys)
  }

  lemma DrainEnds(drained: seq<Sent>, table: map<RequestId, Waiter>)
    ensures Draining([], table, table)
    ensures Draining(drained, table, map[]) ==> Drains(drained, table)
  {
    assert table - table.Keys == map[];
    var none: map<RequestId, Waiter> := map[];
    assert table - none.Keys == table;
  }

  lemma DrainStep(drained: seq<Sent>, table: map<RequestId, Waiter>, left: map<RequestId, Waiter>, id: RequestId)
    requires id in left && Injective(table) && Draining(drained, table, left)
    ensures Draining(drained + [Sent(left[id], BrokenPipe)], table, left - {id})
  {
    var more := table - (left - {id}).Keys;
    assert more - {id} == table - left.Keys;
    DrainsOneMore(drained, more, id);
  }

  class RemoteConnection {
    var running: bool
    var consumerOpen: bool
    var pending: map<RequestId, Waiter>
    var answers: seq<Sent>
    var pendingEvents: seq<Event>
    var channel: seq<Event>
    var consumed: seq<Event>
    ghost const buffered: seq<Event>
    ghost var emitted: seq<Event>
    ghost var drained: seq<Sent>
    ghost var trace: seq<Input>

    /** The worker as the specification sees it, while it runs. */
    ghost function View(): Worker
      reads this
    {
      Worker(running, consumerOpen, pending, answers, [], emitted)
    }

    /** The consumer's side: events come out in the order they were buffered and then emitted. */
    ghost predicate InOrder()
      reads this
    {
      consumed + pendingEvents + channel == buffered + emitted
    }

    ghost predicate Valid()
      reads this
    {
      && OwnWaiters(trace) && InOrder()
      && var w := After(trace);
         if running then View() == w && drained == []
         else
           && !w.running && pending == map[]
           && consumerOpen == w.consumerOpen && emitted == w.events
           && answers == w.answers + drained + w.refused
           && Drains(drained, w.pending)
    }

    constructor (initialEvents: seq<Event>)
      ensures Valid() && running && trace == [] && buffered == initialEvents && consumed == []
    {
      running, consumerOpen, pending, answers := true, true, map[], [];
      pendingEvents, channel, consumed := initialEvents, [], [];
      buffered, emitted, drained, trace := initialEvents, [], [], [];
    }

    /** `next_event`: buffered events first, then the channel; `None` is a wait, or the end of the channel. */
    method NextEvent() returns (e: Option<Event>)
      requires Valid()
      modifies `pendingEvents, `channel, `consumed
      ensures Valid()
      ensures e.None? <==> old(pendingEvents) == [] && old(channel) == []
      ensures e.Some? ==> consumed == old(consumed) + [e.value]
      ensures old(pendingEvents) != [] ==> channel == old(channel) && old(pendingEvents) == [e.value] + pendingEvents
    {
      if pendingEvents != [] {
        e := Some(pendingEvents[0]);
        consumed, pendingEvents := consumed + [pendingEvents[0]], pendingEvents[1..];
      } else if channel != [] {
        e := Some(channel[0]);
        consumed, channel := consumed + [channel[0]], channel[1..];
      } else {
        e := None;
      }
    }

    /** `deliver_event` on the unbounded channel; false when the consumer is gone. */
    method Deliver(e: Event) returns (delivered: bool)
      requires InOrder()
      modifies `channel, `emitted
      ensures InOrder() && delivered == consumerOpen
      ensures View() == Emit(old(View()), e)
    {
      delivered := consumerOpen;
      if delivered {
        assert consumed + pendingEvents + (channel + [e]) == (consumed + pendingEvents + channel) + [e];
        channel := channel + [e];
        emitted := emitted + [e];
      }
    }

    method Answer(waiter: Waiter, answer: Answer)
      modifies `answers
      ensures View() == Reply(old(View()), waiter, answer)
    {
      answers := answers + [Sent(waiter, answer)];
    }

    method Leave(why: Reason)
      requires InOrder() && running
      modifies `channel, `emitted, `running
      ensures InOrder() && View() == Quit(old(View()), why)
    {
      var _ := Deliver(Disconnected(why));
      running := false;
    }

    /** The command branch of the worker's select. */
    method OnCommand(c: Command, writeOk: bool)
      requires InOrder() && running
      modifies `running, `pending, `answers, `channel, `emitted
      ensures InOrder() && View() == Obey(old(View()), c, writeOk)
    {
      match c {
        case Ask(id, waiter) =>
          if id in pending {
            Answer(waiter, Duplicate);
            return;
          }
          pending := pending[id := waiter];
          if !writeOk {
            var removed := pending[id];
            pending := pending - {id};
            Answer(removed, WriteFailed);
            Leave(FailedWrite);
          }
        case Tell(waiter) => Answer(waiter, if writeOk then Written else WriteFailed);
        case Shutdown(waiter) =>
          Answer(waiter, ShutDown);
          running := false;
        case HungUp => running := false;
      }
    }

    /** A response or an error: its waiter, if there is one, leaves the table and is answered. */
    method OnReply(id: RequestId, answer: Answer)
      requires InOrder() && running
      modifies `pending, `answers
      ensures InOrder() && View() == Settle(old(View()), id, answer)
    {
      if id in pending {
        var waiter := pending[id];
        pending := pending - {id};
        Answer(waiter, answer);
      }
    }

    /** An event the consumer must get; the worker ends when it cannot. */
    method OnEvent(e: Event)
      requires InOrder() && running
      modifies `running, `channel, `emitted
      ensures InOrder() && View() == Hand(old(View()), e)
    {
      var delivered := Deliver(e);
      if !delivered { running := false; }
    }

    /** The message branch of the worker's select. */
    method OnMessage(m: Incoming, writeOk: bool)
      requires InOrder() && running
      modifies `running, `pending, `answers, `channel, `emitted
      ensures InOrder() && View() == Take(old(View()), m, writeOk)
    {
      match m {
        case Result(id, result) => OnReply(id, ServerResult(result));
        case Error(id, error) => OnReply(id, ServerError(error));
        case Notice(known, text) => if known { OnEvent(Notified(text)); }
        case Request(id, name, known) =>
          if known {
            OnEvent(Requested(id, name));
          } else if !writeOk {
            Leave(FailedWrite);
          }
        case Malformed => Leave(InvalidMessage);
        case Close(reason) => Leave(ClosedByServer(if reason == "" then "connection closed" else reason));
        case NonText =>
        case Broken => Leave(TransportFailed);
        case End => Leave(EndOfStream);
      }
    }

    /** The end of the worker: every waiter left in the table is told, in the table's own order. */
    method Drain()
      requires !running && drained == [] && Injective(pending)
      modifies `pending, `answers, `drained
      ensures pending == map[] && Drains(drained, old(pending)) && answers == old(answers) + drained
    {
      ghost var table := pending;
      DrainEnds(drained, table);
      while pending != map[]
        invariant Draining(drained, table, pending) && answers == old(answers) + drained
        decreases pending.Keys
      {
        var id :| id in pending;
        DrainStep(drained, table, pending, id);
        var reply := Sent(pending[id], BrokenPipe);
        answers, drained, pending := answers + [reply], drained + [reply], pending - {id};
      }
      DrainEnds(drained, table);
    }

    /** One turn of the worker's loop. */
    method Turn(i: Input)
      requires Valid() && running
      modifies `running, `consumerOpen, `pending, `answers, `channel, `emitted
      ensures InOrder() && View() == React(old(View()), i)
    {
      match i {
        case ConsumerDropped => consumerOpen := false;
        case Commanded(c, writeOk) => OnCommand(c, writeOk);
        case Received(m, writeOk) => OnMessage(m, writeOk);
      }
    }

    /** What still happens after the worker has ended: commands find its channel closed. */
    method Late(i: Input)
      requires Valid() && !running && (HasWaiter(i) ==> Unused(trace, WaiterOf(i)))
      modifies `consumerOpen, `answers, `trace
      ensures Valid() && trace == old(trace) + [i]
    {
      AfterOneMore(trace, i);
      match i {
        case ConsumerDropped => consumerOpen := false;
        case Commanded(c, _) => if !c.HungUp? { answers := answers + [Sent(c.waiter, BrokenPipe)]; }
        case Received(_, _) =>
      }
      trace := trace + [i];
    }

    /** One input, whether the worker still runs or not. */
    method TakeInput(i: Input)
      requires Valid() && (HasWaiter(i) ==> Unused(trace, WaiterOf(i)))
      modifies `running, `consumerOpen, `pending, `answers, `channel, `emitted, `drained, `trace
      ensures Valid() && trace == old(trace) + [i]
    {
      if !running {
        Late(i);
        return;
      }
      AfterOneMore(trace, i);
      Turn(i);
      trace := trace + [i];
      if !running {
        OwnEntries(trace);
        Drain();
      }
    }

    /** One input more; the worker runs exactly while no input has been one that ends it. */
    method Handle(i: Input)
      requires Valid() && (HasWaiter(i) ==> Unused(trace, WaiterOf(i)))
      modifies `running, `consumerOpen, `pending, `answers, `channel, `emitted, `drained, `trace
      ensures Valid() && trace == old(trace) + [i]
      ensures running <==> forall k | 0 <= k < |trace| :: !EndsWorker(trace[..k], trace[k])
    {
      TakeInput(i);
      RunsUntilEnd(trace);
    }
  }

  /** Different ids in the table wait with different waiters. */
  lemma OwnEntries(trace: seq<Input>)
    requires OwnWaiters(trace)
    ensures Injective(After(trace).pending)
  {
    var table := After(trace).pending;
    forall a, b | a in table && b in table && a != b
      ensures table[a] != table[b]
    {
      var j := EntryHasRequest(trace, a);
      var k := EntryHasRequest(trace, b);
      OneOwner(trace, j, k);
    }
  }

  /** A waiter in the table belongs to the request that waits. */
  lemma TableWaiter(trace: seq<Input>, k: nat)
    requires OwnWaiters(trace) && k < |trace| && HasWaiter(trace[k])
    ensures WaiterOf(trace[k]) in After(trace).pending.Values <==> StillWaits(After(trace), trace[k])
  {
    var w, waiter := After(trace), WaiterOf(trace[k]);
    if waiter in w.pending.Values {
      var id :| id in w.pending && w.pending[id] == waiter;
      EntryOwner(trace, id, k);
    }
  }

  /**
   Exactly one answer: once the worker has ended, every command of the run has been answered once, as it should be.
   */
  lemma ExactlyOneAnswer(c: RemoteConnection, k: nat)
    requires c.Valid() && !c.running && k < |c.trace| && HasWaiter(c.trace[k])
    ensures Count(c.answers, WaiterOf(c.trace[k])) == 1
    ensures Sent(WaiterOf(c.trace[k]), OutcomeAt(c.trace, k)) in c.answers
  {
    var w, waiter := After(c.trace), WaiterOf(c.trace[k]);
    AnsweredOrWaiting(c.trace, k);
    OutcomeReached(c.trace, k);
    TableWaiter(c.trace, k);
    CountConcat(w.answers + c.drained, w.refused, waiter);
    CountConcat(w.answers, c.drained, waiter);
  }

  /** The consumer has got, or will get, what was buffered while connecting, and then what the inputs call for. */
  lemma ConsumerGets(c: RemoteConnection)
    requires c.Valid() && ConsumerDropped !in c.trace
    ensures c.consumed + c.pendingEvents + c.channel == c.buffered + EventsDue(c.trace)
  {
    EventsInArrivalOrder(c.trace);
  }

  /** And while it runs, every command has been answered once or waits in the table. */
  lemma AnsweredOnceOrPending(c: RemoteConnection, k: nat)
    requires c.Valid() && c.running && k < |c.trace| && HasWaiter(c.trace[k])
    ensures Count(c.answers, WaiterOf(c.trace[k])) + (if StillWaits(c.View(), c.trace[k]) then 1 else 0) == 1
  {
    AnsweredOrWaiting(c.trace, k);
  }
}
