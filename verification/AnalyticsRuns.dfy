/**
 The analytics reducer read off its inputs: what a turn event reports, which requests are pending, and which compactions
 and reviews are reported, in terms of the facts alone.
 */
module AnalyticsRuns {
  import opened Prelude
  import opened Analytics

  // Times.

  /** The number as the reducer keeps it, if it fits 64 bits without a sign. */
  ghost predicate Fits(given: Option<int>, kept: Option<nat>) {
    || (given.Some? && 0 <= given.value <= 18446744073709551615 && kept == Some(given.value))
    || ((given.None? || given.value < 0 || given.value > 18446744073709551615) && kept == None)
  }

  // Turn events.

  /** Of these facts, the one at `n` is the last start notice of the turn. */
  ghost predicate LastStartAt(facts: seq<Fact>, turn: string, n: nat) {
    && n < |facts| && facts[n].TurnStarted? && facts[n].turn == turn
    && forall k | n < k < |facts| :: !(facts[k].TurnStarted? && facts[k].turn == turn)
  }

  ghost predicate LastUsageAt(facts: seq<Fact>, turn: string, n: nat) {
    && n < |facts| && facts[n].TokenUsage? && facts[n].turn == turn
    && forall k | n < k < |facts| :: !(facts[k].TokenUsage? && facts[k].turn == turn)
  }

  lemma {:induction false} LastStartRead(facts: seq<Fact>, turn: string, n: nat)
    requires LastStartAt(facts, turn, n)
    ensures Fits(facts[n].at, LastStart(facts, turn))
    decreases |facts|
  {
    if n < |facts| - 1 { LastStartRead(facts[..|facts| - 1], turn, n); }
  }

  lemma {:induction false} LastUsageRead(facts: seq<Fact>, turn: string, n: nat)
    requires LastUsageAt(facts, turn, n)
    ensures LastUsage(facts, turn) == Some(facts[n].usage)
    decreases |facts|
  {
    if n < |facts| - 1 { LastUsageRead(facts[..|facts| - 1], turn, n); }
  }

  /** The event reports the ending as it was given, with a missing or impossible completion time as zero. */
  ghost predicate ReportsEnding(c: Completion, ending: Fact)
    requires ending.TurnCompleted?
  {
    && c.status == ending.status && c.error == ending.error
    && Fits(ending.durationMs, c.durationMs)
    && (Fits(ending.at, Some(c.completedAt)) || (Fits(ending.at, None) && c.completedAt == 0))
  }

  /** The last of three places. */
  ghost predicate IsLast(last: nat, i: nat, j: nat, k: nat) {
    last in {i, j, k} && i <= last && j <= last && k <= last
  }

  /** What the event of a turn says, when these facts came before the last of its three. */
  ghost predicate Reports(e: Event, before: seq<Fact>, t: Turn)
    requires t.ending.TurnCompleted?
  {
    && e.TurnEvent? && e.turn == t.id && e.thread == t.thread && e.images == t.images && e.config == t.settings
    && ReportsEnding(e.completed, t.ending)
    && (forall n: nat | LastStartAt(before, t.id, n) :: Fits(before[n].at, e.startedAt))
    && (forall n: nat | LastUsageAt(before, t.id, n) :: e.usage == Some(before[n].usage))
    && (forall n: nat | LastInitialize(before, n, t.key.0) :: e.client == before[n].client)
  }

  lemma JoinedReports(s: State, before: seq<Fact>, t: Turn)
    requires Ready(s, t) && t.ending.TurnCompleted? && t.ending.turn == t.id
    ensures Reports(JoinedAfter(s, before, t), before, t)
  {
    forall n: nat | LastStartAt(before, t.id, n)
      ensures Fits(before[n].at, LastStart(before, t.id))
    {
      LastStartRead(before, t.id, n);
    }
    forall n: nat | LastUsageAt(before, t.id, n)
      ensures LastUsage(before, t.id) == Some(before[n].usage)
    {
      LastUsageRead(before, t.id, n);
    }
    forall n: nat | LastInitialize(before, n, t.key.0)
      ensures ClientNow(s, before, t.key.0) == Some(before[n].client)
    {
      LastInitializeRead(s, before, n, t.key.0);
    }
  }

  lemma {:induction false} LastInitializeRead(s: State, facts: seq<Fact>, n: nat, connection: nat)
    requires LastInitialize(facts, n, connection)
    ensures ClientNow(s, facts, connection) == Some(facts[n].client)
    decreases |facts|
  {
    if n < |facts| - 1 {
      assert !Initializes(facts[|facts| - 1], connection);
      assert forall k | n < k < |facts| - 1 :: facts[..|facts| - 1][k] == facts[k];
      LastInitializeRead(s, facts[..|facts| - 1], n, connection);
    }
  }

  /**
   The one event of a turn, field by field, from its response at `i`, its configuration at `j`, its completion at `k`,
   and the notices, usages and initialisations before the last of the three.
   */
  lemma TurnEventReports(s: State, facts: seq<Fact>, t: Turn, i: nat, j: nat, k: nat, last: nat)
    requires Ready(s, t) && Story(facts, t, i, j, k) && IsLast(last, i, j, k)
    ensures TurnEvents(After(s, facts[..last]).events, t.id) == []
    ensures var events := TurnEvents(After(s, facts).events, t.id);
      |events| == 1 && Reports(events[0], facts[..last], t)
  {
    assert Latest(i, j, k) == last;
    OneEventWhateverTheOrder(s, facts, t, i, j, k, last);
    OneEventWhateverTheOrder(s, facts, t, i, j, k, |facts|);
    assert facts[..|facts|] == facts;
    JoinedReports(s, facts[..last], t);
  }

  // Pending requests.

  predicate Asks(f: Fact, key: RequestKey) {
    (f.TurnStartRequest? || f.TurnSteerRequest?) && (f.connection, f.request) == key
  }

  /** A response or an error under the key, whatever was asked. */
  predicate Settles(f: Fact, key: RequestKey) {
    (f.TurnStartResponse? || f.TurnSteerResponse? || f.ErrorResponse?) && (f.connection, f.request) == key
  }

  /** The fact at `n` asks under the key, and nothing after it asks or settles under it. */
  ghost predicate Unsettled(facts: seq<Fact>, key: RequestKey, n: nat) {
    && n < |facts| && Asks(facts[n], key)
    && forall k | n < k < |facts| :: !Asks(facts[k], key) && !Settles(facts[k], key)
  }

  ghost predicate Awaited(facts: seq<Fact>, key: RequestKey) {
    exists n: nat :: Unsettled(facts, key, n)
  }

  /** What the request of a fact is kept as. */
  ghost predicate KeptAs(f: Fact, pending: Pending) {
    match f
    case TurnStartRequest(_, _, thread, images) =>
      pending.TurnStart? && pending.thread == thread && pending.images == images
    case TurnSteerRequest(_, _, thread, expectedTurn, images, now) =>
      && pending.TurnSteer? && pending.thread == thread && pending.images == images
      && pending.expectedTurn == expectedTurn && pending.createdAt == now
    case _ => false
  }

  lemma FillingTakes(s: State, f: Fact)
    requires FillsRecord(f)
    ensures Ingest(s, f).state.requests
         == if f.TurnStartResponse? then s.requests - {(f.connection, f.request)} else s.requests
  {
  }

  lemma OtherTakes(s: State, f: Fact)
    requires !FillsRecord(f) && !f.TurnStartRequest? && !f.TurnSteerRequest?
    ensures Ingest(s, f).state.requests
         == if f.TurnSteerResponse? || f.ErrorResponse? then s.requests - {(f.connection, f.request)} else s.requests
  {
  }

  lemma RequestsStep(s: State, f: Fact, key: RequestKey)
    ensures var after := Ingest(s, f).state.requests;
      && (Asks(f, key) ==> key in after && KeptAs(f, after[key]))
      && (Settles(f, key) ==> key !in after)
      && (!Asks(f, key) && !Settles(f, key) ==> Entry(after, key) == Entry(s.requests, key))
  {
    if FillsRecord(f) {
      FillingTakes(s, f);
    } else if !f.TurnStartRequest? && !f.TurnSteerRequest? {
      OtherTakes(s, f);
    }
  }

  lemma AwaitedStep(init: seq<Fact>, f: Fact, key: RequestKey, n: nat)
    ensures Unsettled(init + [f], key, n) <==>
      (n == |init| && Asks(f, key)) || (Unsettled(init, key, n) && !Asks(f, key) && !Settles(f, key))
  {
    var facts := init + [f];
    assert facts[|init|] == f && forall k | 0 <= k < |init| :: facts[k] == init[k];
  }

  /** The pending requests are exactly those asked and not settled since, each kept as it was asked. */
  lemma {:induction false} PendingIff(facts: seq<Fact>, key: RequestKey)
    ensures key in After(EMPTY, facts).state.requests <==> Awaited(facts, key)
    ensures forall n: nat | Unsettled(facts, key, n) :: KeptAs(facts[n], After(EMPTY, facts).state.requests[key])
    decreases |facts|
  {
    if facts == [] {
    } else {
      var init, f := facts[..|facts| - 1], facts[|facts| - 1];
      assert facts == init + [f];
      PendingIff(init, key);
      RequestsStep(After(EMPTY, init).state, f, key);
      forall n: nat {
        AwaitedStep(init, f, key, n);
      }
      if n: nat :| Unsettled(init, key, n) { AwaitedStep(init, f, key, n); }
      AwaitedStep(init, f, key, |init|);
    }
  }

  // Reports.

  predicate Initializes(f: Fact, connection: nat) {
    f.Initialize? && f.connection == connection
  }

  /** The connection has been initialised before the fact at `n`. */
  ghost predicate Initialized(facts: seq<Fact>, n: nat, connection: nat) {
    exists k :: 0 <= k < n <= |facts| && Initializes(facts[k], connection)
  }

  /** The fact at `n` is the response of the thread on a connection initialised by then. */
  ghost predicate Homes(facts: seq<Fact>, n: nat, thread: string) {
    n < |facts| && facts[n].ThreadResponse? && facts[n].thread == thread && Initialized(facts, n, facts[n].connection)
  }

  /** The last such response. */
  ghost predicate IsHome(facts: seq<Fact>, n: nat, thread: string) {
    Homes(facts, n, thread) && forall k: nat | n < k :: !Homes(facts, k, thread)
  }

  ghost predicate LastInitialize(facts: seq<Fact>, n: nat, connection: nat) {
    && n < |facts| && Initializes(facts[n], connection)
    && forall k | n < k < |facts| :: !Initializes(facts[k], connection)
  }

  lemma {:induction false} ConnectedIff(facts: seq<Fact>, connection: nat)
    ensures connection in After(EMPTY, facts).state.connections <==> Initialized(facts, |facts|, connection)
    ensures forall n: nat | LastInitialize(facts, n, connection) ::
      Entry(After(EMPTY, facts).state.connections, connection) == Some(facts[n].client)
    decreases |facts|
  {
    if facts == [] {
    } else {
      var init, f := facts[..|facts| - 1], facts[|facts| - 1];
      ConnectedIff(init, connection);
      OnlyInitializeConnects(After(EMPTY, init).state, f);
      assert Initialized(facts, |facts|, connection) <==>
        Initialized(init, |init|, connection) || Initializes(f, connection) by {
        if Initializes(f, connection) { assert Initializes(facts[|facts| - 1], connection); }
        if k :| 0 <= k < |init| && Initializes(init[k], connection) { assert Initializes(facts[k], connection); }
      }
      forall n: nat | LastInitialize(facts, n, connection) && n < |init|
        ensures LastInitialize(init, n, connection) && !Initializes(f, connection)
      {
        assert !Initializes(facts[|facts| - 1], connection);
        assert forall k | n < k < |init| :: init[k] == facts[k];
      }
    }
  }

  lemma HomesStep(init: seq<Fact>, f: Fact, n: nat, thread: string)
    ensures Homes(init + [f], n, thread) <==>
      || Homes(init, n, thread)
      || (n == |init| && f.ThreadResponse? && f.thread == thread && Initialized(init, |init|, f.connection))
  {
    var facts := init + [f];
    if n < |facts| && facts[n].ThreadResponse? {
      var connection := facts[n].connection;
      assert Initialized(facts, n, connection) <==> Initialized(init, n, connection) by {
        if k :| 0 <= k < n && Initializes(facts[k], connection) { assert Initializes(init[k], connection); }
        if k :| 0 <= k < n <= |init| && Initializes(init[k], connection) { assert Initializes(facts[k], connection); }
      }
    }
  }

  ghost predicate HasHome(facts: seq<Fact>, thread: string) {
    exists n: nat :: Homes(facts, n, thread)
  }

  lemma HomeStep(s: State, f: Fact, thread: string)
    ensures var next := Ingest(s, f).state;
      if f.ThreadResponse? && f.thread == thread && f.connection in s.connections then
        && Entry(next.threadConnections, thread) == Some(f.connection)
        && Entry(next.threadMetadata, thread) == Some(f.metadata)
      else
        && Entry(next.threadConnections, thread) == Entry(s.threadConnections, thread)
        && Entry(next.threadMetadata, thread) == Entry(s.threadMetadata, thread)
  {
  }

  /** A thread is known exactly when it has a home, and by the last one. */
  lemma {:induction false} HomeKnown(facts: seq<Fact>, thread: string)
    ensures var s := After(EMPTY, facts).state;
      && (thread in s.threadConnections <==> HasHome(facts, thread))
      && (thread in s.threadMetadata <==> HasHome(facts, thread))
      && (thread in s.threadConnections ==> s.threadConnections[thread] in s.connections)
      && forall n: nat | IsHome(facts, n, thread) ::
           && Entry(s.threadConnections, thread) == Some(facts[n].connection)
           && Entry(s.threadMetadata, thread) == Some(facts[n].metadata)
    decreases |facts|
  {
    if facts == [] {
    } else {
      var init, f := facts[..|facts| - 1], facts[|facts| - 1];
      var s := After(EMPTY, init).state;
      assert facts == init + [f];
      HomeKnown(init, thread);
      HomeStep(s, f, thread);
      OnlyInitializeConnects(s, f);
      if f.ThreadResponse? { ConnectedIff(init, f.connection); }
      forall n: nat {
        HomesStep(init, f, n, thread);
      }
      HomesLast(init, f, thread);
    }
  }

  lemma HomesLast(init: seq<Fact>, f: Fact, thread: string)
    ensures var facts := init + [f];
      if Homes(facts, |init|, thread) then
        HasHome(facts, thread) && forall n: nat :: IsHome(facts, n, thread) <==> n == |init|
      else
        && (HasHome(facts, thread) <==> HasHome(init, thread))
        && forall n: nat :: IsHome(facts, n, thread) <==> IsHome(init, n, thread)
  {
    forall n: nat {
      HomesStep(init, f, n, thread);
    }
  }

  /**
   Over any run, a compaction or a review of a thread is reported, once, exactly when the thread has had a response on
   an initialised connection: for the client that last initialised the connection of the last such response, and a
   compaction with the metadata of that response too.
   */
  lemma ReportedIff(facts: seq<Fact>, f: Fact, home: nat, initialize: nat)
    requires f.Compaction? || f.GuardianReview?
    ensures !HasHome(facts, f.thread) ==> Ingest(After(EMPTY, facts).state, f).events == []
    ensures IsHome(facts, home, f.thread) && LastInitialize(facts, initialize, facts[home].connection) ==>
      Ingest(After(EMPTY, facts).state, f).events == [
        if f.Compaction? then CompactionEvent(facts[initialize].client, facts[home].metadata, f.report)
        else GuardianReviewEvent(facts[initialize].client, f.report)]
  {
    HomeKnown(facts, f.thread);
    if IsHome(facts, home, f.thread) { ConnectedIff(facts, facts[home].connection); }
  }

  /** A thread's response is reported exactly when its connection has been initialised, for the last client to do so. */
  lemma ThreadReportedIff(facts: seq<Fact>, f: Fact, initialize: nat)
    requires f.ThreadResponse?
    ensures !Initialized(facts, |facts|, f.connection) ==> Ingest(After(EMPTY, facts).state, f).events == []
    ensures LastInitialize(facts, initialize, f.connection) ==>
      Ingest(After(EMPTY, facts).state, f).events
        == [ThreadInitialized(f.thread, facts[initialize].client, f.model, f.metadata)]
  {
    ConnectedIff(facts, f.connection);
  }

  /** The facts that are reported by themselves are so whatever came before, one event each, and leave no trace. */
  lemma ReportedAsIs(s: State, f: Fact)
    requires f.Reported?
    ensures var r := Ingest(s, f);
      && r.state == s && |r.events| == |f.reports|
      && forall i | 0 <= i < |r.events| :: r.events[i] == ReportedEvent(f.kind, f.reports[i])
  {
  }
}
