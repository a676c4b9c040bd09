/**
 The in-process client's event worker: it pulls runtime events one at a time and forwards them into a bounded channel
 that a consumer drains, or closes, at its own pace. Transcript and completion notifications block until there is
 room; everything else is dropped when the channel is full, and a lag marker later tells how much was dropped.
 */
module EventForwarding {
  import opened Prelude

  /** The notifications that matter to forwarding by name; any other kind is best-effort. */
  datatype NotificationKind =
    | TurnCompleted
    | ItemCompleted
    | AgentMessageDelta
    | PlanDelta
    | ReasoningSummaryTextDelta
    | ReasoningTextDelta
    | OtherKind(name: string)

  datatype Event =
    | Lagged(skipped: nat)
    | Notification(kind: NotificationKind, payload: string)
    | Request(id: int, tokenRefresh: bool)

  /** `server_notification_requires_delivery`. */
  predicate RequiresDelivery(kind: NotificationKind) {
    kind.TurnCompleted? || kind.ItemCompleted? || kind.AgentMessageDelta? || kind.PlanDelta?
    || kind.ReasoningSummaryTextDelta? || kind.ReasoningTextDelta?
  }

  /** `event_requires_delivery`: the lossless tier. */
  predicate Lossless(e: Event) {
    e.Notification? && RequiresDelivery(e.kind)
  }

  /** The tier holds the notifications named, and nothing else: no other kind, no request and no lag marker. */
  lemma TierIs(e: Event)
    ensures Lossless(e) <==> e.Notification? && !e.kind.OtherKind?
  {
  }

  predicate IsRequest(e: Event) {
    e.Request?
  }

  predicate IsTokenRefresh(e: Event) {
    e.Request? && e.tokenRefresh
  }

  const MAX_SKIPPED: nat := 0xFFFF_FFFF_FFFF_FFFF
  const UNSUPPORTED := -32000
  const OVERLOADED := -32001

  /** A server request that the worker failed on the consumer's behalf, and the error code. */
  datatype Failure = Failure(request: Event, code: int)

  // Histories: what the worker did, one entry per decision.

  datatype Act =
    | Flush(count: nat)
    | Deliver(event: Event)
    | Drop(event: Event)
    | Refuse(event: Event)
    | Lose(event: Event)

  /** `saturating_add(1)`. */
  function Bumped(skipped: nat): nat {
    if skipped >= MAX_SKIPPED then MAX_SKIPPED else skipped + 1
  }

  /** The skip counter after a history. */
  function Counter(h: seq<Act>): nat
    decreases |h|
  {
    if h == [] then 0
    else
      match h[|h| - 1]
      case Drop(_) => Bumped(Counter(h[..|h| - 1]))
      case Flush(_) => 0
      case _ => Counter(h[..|h| - 1])
  }

  /** The history ends with an event lost to a closed channel. */
  predicate Closed(h: seq<Act>) {
    h != [] && h[|h| - 1].Lose?
  }

  /** What the worker may do next. */
  predicate Allowed(h: seq<Act>, a: Act) {
    && !Closed(h)
    && match a
       case Flush(n) => n == Counter(h) && n > 0
       case Deliver(e) => Counter(h) == 0 && !IsTokenRefresh(e)
       case Drop(e) => !Lossless(e) && !IsTokenRefresh(e)
       case Refuse(e) => IsTokenRefresh(e)
       case Lose(e) => !IsTokenRefresh(e)
  }

  predicate Legal(h: seq<Act>)
    decreases |h|
  {
    h == [] || (Legal(h[..|h| - 1]) && Allowed(h[..|h| - 1], h[|h| - 1]))
  }

  function Enqueues(a: Act): seq<Event> {
    match a
    case Flush(n) => [Lagged(n)]
    case Deliver(e) => [e]
    case _ => []
  }

  function Fails(a: Act): seq<Failure> {
    match a
    case Drop(e) => if e.Request? then [Failure(e, OVERLOADED)] else []
    case Refuse(e) => [Failure(e, UNSUPPORTED)]
    case _ => []
  }

  function Pulls(a: Act): seq<Event> {
    if a.Flush? then [] else [a.event]
  }

  /** Everything ever put into the channel, everything failed, and everything pulled, each in order. */
  function Enqueued(h: seq<Act>): seq<Event> {
    if h == [] then [] else Enqueued(h[..|h| - 1]) + Enqueues(h[|h| - 1])
  }

  function Failures(h: seq<Act>): seq<Failure> {
    if h == [] then [] else Failures(h[..|h| - 1]) + Fails(h[|h| - 1])
  }

  function Pulled(h: seq<Act>): seq<Event> {
    if h == [] then [] else Pulled(h[..|h| - 1]) + Pulls(h[|h| - 1])
  }

  /** One more act. */
  lemma Grows(h: seq<Act>, a: Act)
    ensures Legal(h + [a]) == (Legal(h) && Allowed(h, a))
    ensures Counter(h + [a]) == match a case Drop(_) => Bumped(Counter(h)) case Flush(_) => 0 case _ => Counter(h)
    ensures Closed(h + [a]) == a.Lose?
    ensures Enqueued(h + [a]) == Enqueued(h) + Enqueues(a)
    ensures Failures(h + [a]) == Failures(h) + Fails(a)
    ensures Pulled(h + [a]) == Pulled(h) + Pulls(a)
  {
    assert (h + [a])[..|h|] == h;
  }

  // The worker.

  /**
   A command of the client, with the caller that waits for it. A request is answered from a task of its own; the others
   are sent at once, and `result` is what the send returns.
   */
  datatype ClientCommand =
    | Ask(waiter: nat)
    | SendNow(waiter: nat, result: bool)
    | Shutdown(waiter: nat, result: bool)
    | HungUp

  predicate Stops(c: ClientCommand) {
    c.Shutdown? || c.HungUp?
  }

  /** None of the first `n` commands stops the worker. */
  ghost predicate Unstopped(commands: seq<ClientCommand>, n: nat) {
    n <= |commands| && forall k | 0 <= k < n :: !Stops(commands[k])
  }

  /** The `n`-th command stops it, and none before. */
  ghost predicate StoppedAt(commands: seq<ClientCommand>, n: nat) {
    0 < n <= |commands| && Stops(commands[n - 1]) && Unstopped(commands, n - 1)
  }

  function Detaches(c: ClientCommand): seq<nat> {
    if c.Ask? then [c.waiter] else []
  }

  function Replies(c: ClientCommand): seq<(nat, bool)> {
    if c.SendNow? || c.Shutdown? then [(c.waiter, c.result)] else []
  }

  /** The callers whose requests wait in tasks of their own, and the replies sent by the loop, each in order. */
  function AllDetached(commands: seq<ClientCommand>): seq<nat> {
    if commands == [] then []
    else AllDetached(commands[..|commands| - 1]) + Detaches(commands[|commands| - 1])
  }

  function AllReplies(commands: seq<ClientCommand>): seq<(nat, bool)> {
    if commands == [] then [] else AllReplies(commands[..|commands| - 1]) + Replies(commands[|commands| - 1])
  }

  /** Every request waits in a task of its own, and every other answered command gets the reply its send returns. */
  lemma {:induction false} CommandsAnswered(commands: seq<ClientCommand>, waiter: nat, result: bool)
    ensures waiter in AllDetached(commands) <==> Ask(waiter) in commands
    ensures (waiter, result) in AllReplies(commands) <==>
      SendNow(waiter, result) in commands || Shutdown(waiter, result) in commands
    ensures |AllDetached(commands)| + |AllReplies(commands)| + HangUps(commands) == |commands|
    decreases |commands|
  {
    if commands == [] {
    } else {
      var init, last := commands[..|commands| - 1], commands[|commands| - 1];
      assert commands == init + [last];
      CommandsAnswered(init, waiter, result);
    }
  }

  function HangUps(commands: seq<ClientCommand>): nat {
    if commands == [] then 0
    else HangUps(commands[..|commands| - 1]) + if commands[|commands| - 1].HungUp? then 1 else 0
  }

  datatype ForwardResult = Continue | DisableStream

  datatype TrySendOutcome = Sent | Full | Disconnected

  /** The channel with its consumer, the worker's counter and flag, and the requests it has failed. */
  class EventWorker {
    const capacity: nat
    var queue: seq<Event>
    var consumed: seq<Event>
    var open: bool
    var skipped: nat
    var enabled: bool
    var failed: seq<Failure>
    var detached: seq<nat>
    var replies: seq<(nat, bool)>
    ghost var history: seq<Act>

    ghost predicate Valid()
      reads `queue, `consumed, `open, `skipped, `failed, `history
    {
      && capacity >= 1 && |queue| <= capacity
      && Legal(history) && skipped == Counter(history)
      && consumed + queue == Enqueued(history)
      && failed == Failures(history)
      && (Closed(history) ==> !open)
    }

    /** Event `e` has been decided since `before`: the stream ends only on a loss, and only a full channel drops. */
    ghost predicate Decided(before: seq<Act>, e: Event, result: ForwardResult)
      reads `queue, `consumed, `open, `skipped, `failed, `history
    {
      && Valid() && before < history
      && Pulled(history) == Pulled(before) + [e]
      && (result.DisableStream? <==> Closed(history))
      && (history[|history| - 1].Drop? ==> |queue| == capacity)
    }

    constructor (requestedCapacity: nat)
      ensures Valid() && open && enabled && skipped == 0 && history == [] && detached == [] && replies == []
      ensures capacity == if requestedCapacity == 0 then 1 else requestedCapacity
    {
      capacity := if requestedCapacity == 0 then 1 else requestedCapacity;
      queue, consumed, open := [], [], true;
      skipped, enabled, failed, history := 0, true, [], [];
      detached, replies := [], [];
    }

    /** The consumer takes any number of events, and may close the channel, which stays closed. */
    method ConsumerRuns()
      modifies `queue, `consumed, `open
      ensures consumed + queue == old(consumed + queue)
      ensures |queue| <= |old(queue)| && (open ==> old(open))
    {
      if open {
        var n :| 0 <= n <= |queue|;
        consumed, queue := consumed + queue[..n], queue[n..];
        if * { open := false; }
      }
    }

    /** `send(..).await`: blocks until the consumer makes room or closes. */
    method Send(e: Event) returns (sent: bool)
      requires 1 <= capacity && |queue| <= capacity
      modifies `queue, `consumed, `open
      ensures |queue| <= capacity && (open ==> old(open))
      ensures consumed + queue == old(consumed + queue) + if sent then [e] else []
      ensures sent <==> open
    {
      ConsumerRuns();
      if open && |queue| == capacity {
        consumed, queue := consumed + [queue[0]], queue[1..];
      }
      sent := open;
      if sent { queue := queue + [e]; }
    }

    /** `try_send`: never blocks; a full channel hands the event back. */
    method TrySend(e: Event) returns (outcome: TrySendOutcome)
      requires 1 <= capacity && |queue| <= capacity
      modifies `queue, `consumed, `open
      ensures |queue| <= capacity && (open ==> old(open))
      ensures consumed + queue == old(consumed + queue) + if outcome.Sent? then [e] else []
      ensures outcome.Disconnected? <==> !open
      ensures outcome.Full? ==> |queue| == capacity
    {
      ConsumerRuns();
      if !open {
        outcome := Disconnected;
      } else if |queue| == capacity {
        outcome := Full;
      } else {
        queue := queue + [e];
        outcome := Sent;
      }
    }

    /** The bookkeeping of one decision whose effect on the channel has already happened. */
    ghost method Log(a: Act)
      modifies `history
      ensures history == old(history) + [a]
      ensures Legal(history) == (Legal(old(history)) && Allowed(old(history), a))
      ensures Counter(history)
           == match a case Drop(_) => Bumped(Counter(old(history))) case Flush(_) => 0 case _ => Counter(old(history))
      ensures Closed(history) == a.Lose?
      ensures Enqueued(history) == Enqueued(old(history)) + Enqueues(a)
      ensures Failures(history) == Failures(old(history)) + Fails(a)
      ensures Pulled(history) == Pulled(old(history)) + Pulls(a)
    {
      Grows(history, a);
      history := history + [a];
    }

    /** The event could not be sent: it counts as skipped, and a server request is failed instead of left waiting. */
    method DropEvent(e: Event)
      requires Valid() && !Closed(history) && !Lossless(e) && !IsTokenRefresh(e)
      modifies `skipped, `failed, `history
      ensures Valid() && history == old(history) + [Drop(e)]
      ensures Pulled(history) == Pulled(old(history)) + [e]
    {
      skipped := Bumped(skipped);
      if e.Request? { failed := failed + [Failure(e, OVERLOADED)]; }
      Log(Drop(e));
    }

    /** The marker is in the channel. */
    ghost predicate MarkerSent(before: seq<Act>, count: nat)
      reads `queue, `consumed, `open, `skipped, `failed, `history
    {
      && Valid() && skipped == 0 && !Closed(history)
      && history == before + [Flush(count)] && Pulled(history) == Pulled(before)
    }

    /** The marker ahead of a lossless event waits for room; the event is lost when the channel is closed. */
    method FlushBlocking(e: Event) returns (verdict: Option<ForwardResult>)
      requires Valid() && !Closed(history) && skipped > 0 && Lossless(e)
      modifies `queue, `consumed, `open, `skipped, `history
      ensures verdict.None? ==> MarkerSent(old(history), old(skipped))
      ensures verdict.Some? ==> Decided(old(history), e, verdict.value) && history == old(history) + [Lose(e)]
    {
      var sent := Send(Lagged(skipped));
      if sent {
        Log(Flush(skipped));
        skipped := 0;
        return None;
      }
      Log(Lose(e));
      return Some(DisableStream);
    }

    /** The marker ahead of any other event goes in at once, or the event is dropped with it, or lost. */
    method FlushAtOnce(e: Event) returns (verdict: Option<ForwardResult>)
      requires Valid() && !Closed(history) && skipped > 0 && !Lossless(e) && !IsTokenRefresh(e)
      modifies `queue, `consumed, `open, `skipped, `failed, `history
      ensures verdict.None? ==> MarkerSent(old(history), old(skipped))
      ensures verdict.Some? ==> Decided(old(history), e, verdict.value)
    {
      var outcome := TrySend(Lagged(skipped));
      match outcome {
        case Sent =>
          Log(Flush(skipped));
          skipped := 0;
          verdict := None;
        case Full =>
          DropEvent(e);
          verdict := Some(Continue);
        case Disconnected =>
          Log(Lose(e));
          verdict := Some(DisableStream);
      }
    }

    /** The pending lag marker, ahead of event `e`; when forwarding ends there, how. */
    method FlushMarker(e: Event) returns (verdict: Option<ForwardResult>)
      requires Valid() && !Closed(history) && skipped > 0 && !IsTokenRefresh(e)
      modifies `queue, `consumed, `open, `skipped, `failed, `history
      ensures verdict.None? ==> MarkerSent(old(history), old(skipped))
      ensures verdict.Some? ==> Decided(old(history), e, verdict.value)
      ensures verdict.Some? && Lossless(e) ==> history == old(history) + [Lose(e)]
    {
      if Lossless(e) {
        verdict := FlushBlocking(e);
      } else {
        verdict := FlushAtOnce(e);
      }
    }

    /** A lossless event waits for room. */
    method ForwardLossless(e: Event) returns (result: ForwardResult)
      requires Valid() && !Closed(history) && skipped == 0 && Lossless(e)
      modifies `queue, `consumed, `open, `history
      ensures Decided(old(history), e, result)
      ensures history == old(history) + [if result.Continue? then Deliver(e) else Lose(e)]
    {
      var sent := Send(e);
      if sent {
        Log(Deliver(e));
        result := Continue;
      } else {
        Log(Lose(e));
        result := DisableStream;
      }
    }

    /** A best-effort event goes in at once or is dropped. */
    method ForwardBestEffort(e: Event) returns (result: ForwardResult)
      requires Valid() && !Closed(history) && skipped == 0 && !Lossless(e) && !IsTokenRefresh(e)
      modifies `queue, `consumed, `open, `skipped, `failed, `history
      ensures Decided(old(history), e, result)
    {
      var outcome := TrySend(e);
      match outcome {
        case Sent =>
          Log(Deliver(e));
          result := Continue;
        case Full =>
          DropEvent(e);
          result := Continue;
        case Disconnected =>
          Log(Lose(e));
          result := DisableStream;
      }
    }

    /** `forward_in_process_event`. */
    method Forward(e: Event) returns (result: ForwardResult)
      requires Valid() && !Closed(history) && !IsTokenRefresh(e)
      modifies `queue, `consumed, `open, `skipped, `failed, `history
      ensures Decided(old(history), e, result)
    {
      if skipped > 0 {
        var verdict := FlushMarker(e);
        if verdict.Some? { return verdict.value; }
      }
      if Lossless(e) {
        result := ForwardLossless(e);
      } else {
        result := ForwardBestEffort(e);
      }
    }

    /** One pulled event: a token refresh is refused on the spot, anything else is forwarded. */
    method Handle(e: Event)
      requires Valid() && !Closed(history) && enabled
      modifies `queue, `consumed, `open, `skipped, `failed, `history, `enabled
      ensures Valid() && (enabled <==> !Closed(history))
      ensures Pulled(history) == Pulled(old(history)) + [e]
    {
      if IsTokenRefresh(e) {
        failed := failed + [Failure(e, UNSUPPORTED)];
        Log(Refuse(e));
      } else {
        var result := Forward(e);
        if result.DisableStream? { enabled := false; }
      }
    }

    /** The first `n` commands have been served, and these are the replies and the tasks they left. */
    ghost predicate Served(commands: seq<ClientCommand>, n: nat)
      reads `detached, `replies
    {
      n <= |commands| && detached == AllDetached(commands[..n]) && replies == AllReplies(commands[..n])
    }

    /** The first `n` events of the source have been pulled, and the stream is enabled until one is lost. */
    ghost predicate HasPulled(source: seq<Event>, n: nat)
      reads `queue, `consumed, `open, `skipped, `failed, `history, `enabled
    {
      Valid() && n <= |source| && Pulled(history) == source[..n] && (enabled <==> !Closed(history))
    }

    /** The command branch of the select: what does not wait is answered at once; the loop ends at a shutdown. */
    method Serve(commands: seq<ClientCommand>, n: nat) returns (running: bool)
      requires Served(commands, n) && n < |commands|
      modifies `detached, `replies
      ensures Served(commands, n + 1)
      ensures running <==> commands[n].Ask? || commands[n].SendNow?
    {
      assert commands[..n + 1][..n] == commands[..n];
      running := true;
      match commands[n] {
        case Ask(waiter) => detached := detached + [waiter];
        case SendNow(waiter, result) => replies := replies + [(waiter, result)];
        case Shutdown(waiter, result) =>
          replies := replies + [(waiter, result)];
          running := false;
        case HungUp => running := false;
      }
    }

    /** The event branch of the select. */
    method PullNext(source: seq<Event>, n: nat)
      requires HasPulled(source, n) && enabled && n < |source|
      modifies `queue, `consumed, `open, `skipped, `failed, `history, `enabled
      ensures HasPulled(source, n + 1)
    {
      assert source[..n + 1] == source[..n] + [source[n]];
      Handle(source[n]);
    }

    /** One turn of the select: whichever is ready, a command or an event, and events only while they are enabled. */
    method Turn(source: seq<Event>, commands: seq<ClientCommand>, pulled: nat, served: nat)
      returns (nextPulled: nat, nextServed: nat, running: bool)
      requires HasPulled(source, pulled) && Served(commands, served) && Unstopped(commands, served)
      requires served < |commands| || (enabled && pulled < |source|)
      modifies this
      ensures HasPulled(source, nextPulled) && Served(commands, nextServed)
      ensures pulled <= nextPulled && served <= nextServed && nextPulled + nextServed == pulled + served + 1
      ensures if running then Unstopped(commands, nextServed) else StoppedAt(commands, nextServed)
    {
      nextPulled, nextServed, running := pulled, served, true;
      var commandNext: bool := *;
      if served < |commands| && (commandNext || !enabled || pulled == |source|) {
        running := Serve(commands, served);
        nextServed := served + 1;
      } else {
        PullNext(source, pulled);
        nextPulled := pulled + 1;
      }
    }

    /**
     The worker's loop. It ends at a shutdown, when the client has gone, and when the runtime has no more events to
     pull; a disabled stream does not end it.
     */
    method Work(source: seq<Event>, commands: seq<ClientCommand>) returns (pulled: nat, served: nat)
      requires HasPulled(source, 0) && Served(commands, 0)
      modifies this
      ensures HasPulled(source, pulled) && Served(commands, served)
      ensures StoppedAt(commands, served)
           || (Unstopped(commands, served) && (served == |commands| || (enabled && pulled == |source|)))
    {
      pulled, served := 0, 0;
      var running := true;
      while running && (served < |commands| || (enabled && pulled < |source|))
        invariant HasPulled(source, pulled) && Served(commands, served)
        invariant running ==> Unstopped(commands, served)
        invariant running || StoppedAt(commands, served)
               || (Unstopped(commands, served) && enabled && pulled == |source|)
        decreases |source| - pulled + |commands| - served
      {
        pulled, served, running := Turn(source, commands, pulled, served);
        var noMoreEvents: bool := *;
        running := running && !(noMoreEvents && enabled && pulled == |source|);
      }
    }
  }

  // What every run keeps.

  /** What an act adds to a filtered channel or source. */
  function Kept(events: seq<Event>, keep: Event -> bool): seq<Event> {
    if events != [] && keep(events[0]) then [events[0]] else []
  }

  lemma RetainAtMostOne(xs: seq<Event>, ys: seq<Event>, keep: Event -> bool)
    requires |ys| <= 1
    ensures Retain(xs + ys, keep) == Retain(xs, keep) + Kept(ys, keep)
  {
    RetainConcat(xs, ys, keep);
    if ys != [] {
      assert ys == [ys[0]];
      RetainOne(ys[0], keep);
    }
  }

  lemma RetainLast(h: seq<Act>, keep: Event -> bool)
    requires h != []
    ensures Retain(Enqueued(h), keep) == Retain(Enqueued(h[..|h| - 1]), keep) + Kept(Enqueues(h[|h| - 1]), keep)
    ensures Retain(Pulled(h), keep) == Retain(Pulled(h[..|h| - 1]), keep) + Kept(Pulls(h[|h| - 1]), keep)
  {
    RetainAtMostOne(Enqueued(h[..|h| - 1]), Enqueues(h[|h| - 1]), keep);
    RetainAtMostOne(Pulled(h[..|h| - 1]), Pulls(h[|h| - 1]), keep);
  }

  function Flushed(h: seq<Act>): nat {
    if h == [] then 0 else Flushed(h[..|h| - 1]) + if h[|h| - 1].Flush? then h[|h| - 1].count else 0
  }

  function Dropped(h: seq<Act>): nat {
    if h == [] then 0 else Dropped(h[..|h| - 1]) + if h[|h| - 1].Drop? then 1 else 0
  }

  /** Drops that found the counter at its maximum. */
  function Saturated(h: seq<Act>): nat {
    if h == [] then 0
    else Saturated(h[..|h| - 1]) + if h[|h| - 1].Drop? && Counter(h[..|h| - 1]) >= MAX_SKIPPED then 1 else 0
  }

  /**
   Conservation: what the markers reported, plus what the counter still holds, is the number of source events dropped,
   each counted once whatever it was; only drops at a saturated counter go missing.
   */
  lemma {:induction false} SkipsConserved(h: seq<Act>)
    requires Legal(h)
    ensures Flushed(h) + Counter(h) + Saturated(h) == Dropped(h)
    ensures Flushed(h) + Counter(h) == Dropped(h) <==> Saturated(h) == 0
    ensures Counter(h) <= 18446744073709551615
    decreases |h|
  {
    if h == [] {
    } else {
      SkipsConserved(h[..|h| - 1]);
    }
  }

  /** No saturation before the counter's range is used up. */
  lemma {:induction false} FewDropsNeverSaturate(h: seq<Act>)
    requires Legal(h) && Dropped(h) <= 18446744073709551615
    ensures Saturated(h) == 0 && Flushed(h) + Counter(h) == Dropped(h)
    decreases |h|
  {
    SkipsConserved(h);
    if h == [] {
    } else {
      FewDropsNeverSaturate(h[..|h| - 1]);
      SkipsConserved(h[..|h| - 1]);
    }
  }

  /** The source events that went into the channel. */
  function Delivered(h: seq<Act>): seq<Event> {
    if h == [] then [] else Delivered(h[..|h| - 1]) + if h[|h| - 1].Deliver? then [h[|h| - 1].event] else []
  }

  /** Order: the delivered events are a subsequence of the source. */
  lemma {:induction false} DeliveredInSourceOrder(h: seq<Act>)
    ensures Subsequence(Delivered(h), Pulled(h))
    decreases |h|
  {
    if h == [] {
    } else {
      var init, last := h[..|h| - 1], h[|h| - 1];
      DeliveredInSourceOrder(init);
      var s, t := Delivered(init), Pulled(init);
      if last.Flush? {
        assert Delivered(h) == s && Pulled(h) == t;
      } else {
        SubsequenceGrows(s, t, last.event);
        assert Delivered(h) == if last.Deliver? then s + [last.event] else s;
        assert Pulled(h) == t + [last.event];
      }
    }
  }

  /** No loss in the transcript tier: while the channel is open the consumer gets exactly the lossless source events. */
  lemma {:induction false} LosslessTierIntact(h: seq<Act>)
    requires Legal(h)
    ensures !Closed(h) ==> Retain(Enqueued(h), Lossless) == Retain(Pulled(h), Lossless)
    ensures Closed(h) ==> Retain(Enqueued(h), Lossless) == Retain(Pulled(h)[..|Pulled(h)| - 1], Lossless)
    decreases |h|
  {
    if h == [] {
    } else {
      var init, last := h[..|h| - 1], h[|h| - 1];
      LosslessTierIntact(init);
      RetainLast(h, Lossless);
      if last.Lose? { assert Pulled(h)[..|Pulled(h)| - 1] == Pulled(init); }
    }
  }

  /** A marker always sits between a dropped event and the next delivered one. */
  lemma {:induction false} MarkerBetween(h: seq<Act>, i: nat, j: nat)
    requires Legal(h) && i < j < |h| && h[i].Drop? && h[j].Deliver?
    ensures exists k :: i < k < j && h[k].Flush?
    decreases |h|
  {
    if j < |h| - 1 {
      MarkerBetween(h[..|h| - 1], i, j);
    } else {
      PendingUntilFlushed(h[..j], i);
    }
  }

  lemma {:induction false} PendingUntilFlushed(h: seq<Act>, i: nat)
    requires Legal(h) && i < |h| && h[i].Drop?
    requires Counter(h) == 0
    ensures exists k :: i < k < |h| && h[k].Flush?
    decreases |h|
  {
    if h[|h| - 1].Flush? {
    } else {
      PendingUntilFlushed(h[..|h| - 1], i);
    }
  }

  function FailedRequests(failures: seq<Failure>): seq<Event> {
    seq(|failures|, i requires 0 <= i < |failures| => failures[i].request)
  }

  /** The request a closed channel swallowed, if it did. */
  function Swallowed(h: seq<Act>): seq<Event> {
    if Closed(h) && h[|h| - 1].event.Request? then [h[|h| - 1].event] else []
  }

  lemma FailedRequestsGrow(failures: seq<Failure>, more: seq<Failure>)
    ensures FailedRequests(failures + more) == FailedRequests(failures) + FailedRequests(more)
  {
  }

  lemma FailedRequestsOne(more: seq<Failure>)
    requires |more| <= 1
    ensures FailedRequests(more) == if more == [] then [] else [more[0].request]
  {
  }

  /** Where one act puts the request it pulled. */
  lemma RequestPlaced(a: Act, enqueued: seq<Event>, failed: seq<Event>, pulled: seq<Event>)
    requires multiset(enqueued) + multiset(failed) == multiset(pulled)
    requires a.Refuse? ==> a.event.Request?
    ensures multiset(enqueued + Kept(Enqueues(a), IsRequest))
          + multiset(failed + if Fails(a) == [] then [] else [Fails(a)[0].request])
          + multiset(if a.Lose? && a.event.Request? then [a.event] else [])
         == multiset(pulled + Kept(Pulls(a), IsRequest))
  {
  }

  lemma FailedRequestsLast(h: seq<Act>)
    requires h != []
    ensures FailedRequests(Failures(h))
         == FailedRequests(Failures(h[..|h| - 1]))
          + if Fails(h[|h| - 1]) == [] then [] else [Fails(h[|h| - 1])[0].request]
  {
    FailedRequestsGrow(Failures(h[..|h| - 1]), Fails(h[|h| - 1]));
    FailedRequestsOne(Fails(h[|h| - 1]));
  }

  /**
   Server requests are settled once: each one pulled is in exactly one place, the channel or the failed list, except
   the one a closed channel swallowed.
   */
  lemma {:induction false} RequestsAccounted(h: seq<Act>)
    requires Legal(h)
    ensures multiset(Retain(Enqueued(h), IsRequest)) + multiset(FailedRequests(Failures(h))) + multiset(Swallowed(h))
         == multiset(Retain(Pulled(h), IsRequest))
    decreases |h|
  {
    if h == [] {
    } else {
      var init, last := h[..|h| - 1], h[|h| - 1];
      var enqueued, pulled := Retain(Enqueued(init), IsRequest), Retain(Pulled(init), IsRequest);
      var failed := FailedRequests(Failures(init));
      assert multiset(enqueued) + multiset(failed) == multiset(pulled) by {
        RequestsAccounted(init);
        assert Swallowed(init) == [];
      }
      assert last.Refuse? ==> last.event.Request?;
      RequestPlaced(last, enqueued, failed, pulled);
      RetainLast(h, IsRequest);
      FailedRequestsLast(h);
    }
  }

  /** So every request is settled exactly when the run does not end by losing one to a closed channel. */
  lemma RequestsSettledIff(h: seq<Act>)
    requires Legal(h)
    ensures (multiset(Retain(Enqueued(h), IsRequest)) + multiset(FailedRequests(Failures(h)))
             == multiset(Retain(Pulled(h), IsRequest)))
       <==> !(Closed(h) && h[|h| - 1].event.Request?)
  {
    RequestsAccounted(h);
    var settled := multiset(Retain(Enqueued(h), IsRequest)) + multiset(FailedRequests(Failures(h)));
    if Swallowed(h) != [] {
      assert |settled + multiset(Swallowed(h))| == |settled| + 1;
    } else {
      assert settled + multiset(Swallowed(h)) == settled;
    }
  }

  /** Token-refresh requests never reach the consumer. */
  lemma {:induction false} TokenRefreshNeverForwarded(h: seq<Act>)
    requires Legal(h)
    ensures Retain(Enqueued(h), IsTokenRefresh) == []
    decreases |h|
  {
    if h == [] {
    } else {
      TokenRefreshNeverForwarded(h[..|h| - 1]);
      RetainLast(h, IsTokenRefresh);
    }
  }

  /** They, and only they, are failed as unsupported; every other failed request is failed as overloaded. */
  lemma {:induction false} FailureCodes(h: seq<Act>)
    requires Legal(h)
    ensures forall f | f in Failures(h) ::
      f.request.Request? && f.code == if f.request.tokenRefresh then -32000 else -32001
    decreases |h|
  {
    if h == [] {
    } else {
      FailureCodes(h[..|h| - 1]);
    }
  }

  lemma {:induction false} TokenRefreshRefused(h: seq<Act>, e: Event)
    requires Legal(h) && e in Pulled(h) && e.Request? && e.tokenRefresh
    ensures Failure(e, -32000) in Failures(h)
    decreases |h|
  {
    if e !in Pulled(h[..|h| - 1]) {
    } else {
      TokenRefreshRefused(h[..|h| - 1], e);
    }
  }

  // The cases the conditions rule out, and what they mean for a worker.

  /** One server request, and a channel that is already closed: the request is neither forwarded nor failed. */
  lemma ClosedChannelSwallows(id: int)
    ensures var h := [Lose(Request(id, false))];
      && Legal(h) && Pulled(h) == [Request(id, false)] && Enqueued(h) == [] && Failures(h) == []
      && multiset(Retain(Enqueued(h), IsRequest)) + multiset(FailedRequests(Failures(h)))
         != multiset(Retain(Pulled(h), IsRequest))
  {
    var e := Request(id, false);
    Grows([], Lose(e));
    assert [] + [Lose(e)] == [Lose(e)];
    RequestsSettledIff([Lose(e)]);
  }

  function Drops(e: Event, n: nat): seq<Act> {
    if n == 0 then [] else Drops(e, n - 1) + [Drop(e)]
  }

  /** What one more drop counts for. */
  lemma DropCounts(h: seq<Act>, e: Event)
    ensures Flushed(h + [Drop(e)]) == Flushed(h) && Dropped(h + [Drop(e)]) == Dropped(h) + 1
    ensures Saturated(h + [Drop(e)]) == Saturated(h) + if Counter(h) >= MAX_SKIPPED then 1 else 0
    ensures Counter(h + [Drop(e)]) == Bumped(Counter(h))
  {
    assert (h + [Drop(e)])[..|h|] == h;
  }

  /** A channel that stays full: nothing is flushed, and the counter stops at its maximum. */
  lemma {:induction false} FullChannelDrops(e: Event, n: nat)
    ensures var h := Drops(e, n);
      Flushed(h) == 0 && Dropped(h) == n && Counter(h) == (if n <= MAX_SKIPPED then n else MAX_SKIPPED)
  {
    if n == 0 {
    } else {
      FullChannelDrops(e, n - 1);
      DropCounts(Drops(e, n - 1), e);
    }
  }

  lemma {:induction false} FullChannelIsLegal(e: Event, n: nat)
    requires !Lossless(e) && !IsTokenRefresh(e)
    ensures Legal(Drops(e, n)) && !Closed(Drops(e, n))
  {
    if n == 0 {
    } else {
      FullChannelIsLegal(e, n - 1);
      Grows(Drops(e, n - 1), Drop(e));
    }
  }

  /** Drops past the maximum are counted nowhere. */
  lemma FullChannelSaturates(e: Event, n: nat)
    requires !Lossless(e) && !IsTokenRefresh(e)
    ensures Saturated(Drops(e, n)) == if n <= MAX_SKIPPED then 0 else n - MAX_SKIPPED
  {
    FullChannelIsLegal(e, n);
    FullChannelDrops(e, n);
    SkipsConserved(Drops(e, n));
  }

  /** So with one drop more than the counter holds, conservation fails. */
  lemma ConservationFails(name: string)
    ensures var h := Drops(Notification(OtherKind(name), ""), MAX_SKIPPED + 1);
      Legal(h) && Saturated(h) == 1 && Flushed(h) + Counter(h) < Dropped(h)
  {
    var e := Notification(OtherKind(name), "");
    FullChannelIsLegal(e, MAX_SKIPPED + 1);
    FullChannelDrops(e, MAX_SKIPPED + 1);
    FullChannelSaturates(e, MAX_SKIPPED + 1);
  }

  /**
   While its channel is open, a worker has put into it exactly the lossless events it pulled, in order, and has settled
   every server request it pulled, by the channel or by a failure.
   */
  lemma OpenWorker(w: EventWorker)
    requires w.Valid() && w.open
    ensures Retain(w.consumed + w.queue, Lossless) == Retain(Pulled(w.history), Lossless)
    ensures multiset(Retain(w.consumed + w.queue, IsRequest)) + multiset(FailedRequests(w.failed))
         == multiset(Retain(Pulled(w.history), IsRequest))
  {
    LosslessTierIntact(w.history);
    RequestsSettledIff(w.history);
  }

  /**
   The markers a worker has put into its channel, its counter, and the events it has dropped agree until saturation.
   */
  lemma WorkerCountsDrops(w: EventWorker)
    requires w.Valid() && Dropped(w.history) <= 18446744073709551615
    ensures Flushed(w.history) + w.skipped == Dropped(w.history)
  {
    FewDropsNeverSaturate(w.history);
  }
}
