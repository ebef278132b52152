/** The write-batching pipeline of internal/tweet/handler.go as a state
    machine on values.

    `PostTweet` validates a request and offers the tweet to the buffered
    channel `tweetCh` without blocking. One worker owns a batch and, per
    iteration of its `select`, handles exactly one event: an item taken
    from the channel, a tick of the ticker, or the cancellation of its
    context. The channel is the FIFO `intake`; every call of the sink
    (`svc.Post`) is recorded in `calls`, together with the answer the sink
    gave, which the worker ignores. */
module Pipeline {
  import opened Wrappers
  import opened Models

  /** Capacity of the buffered channel `tweetCh`. */
  const IntakeCapacity: nat := 200

  /** `maxBatchSize`: a batch that reaches this length is flushed at once. */
  const MaxBatchSize: nat := 300

  const StatusAccepted: int := 202
  const StatusBadRequest: int := 400
  const StatusUnauthorized: int := 401
  const StatusServiceUnavailable: int := 503

  /** One call of the sink: the items handed over, and whether the sink
      reported success. */
  datatype SinkCall = SinkCall(items: seq<Tweet>, ok: bool)

  /** The channel's contents, the worker's batch, the log of sink calls,
      and whether the worker loop has returned. */
  datatype State = State(intake: seq<Tweet>, batch: seq<Tweet>, calls: seq<SinkCall>, stopped: bool)

  /** What the worker sees or what a caller does: an HTTP request to
      `PostTweet` (the user id found in its context, and its body, `None`
      when the body is not valid JSON), or one of the three cases of the
      worker's `select`. Each worker case carries the sink's answer, used
      only if that event flushes. */
  datatype Event =
    | Request(userId: Option<int64>, body: Option<Tweet>)
    | ItemReady(sinkOk: bool)
    | TickerFired(sinkOk: bool)
    | Cancelled(sinkOk: bool)

  /** Everything handed to the sink, call after call, in order. */
  function Committed(calls: seq<SinkCall>): seq<Tweet>
  {
    if calls == [] then [] else Committed(calls[..|calls| - 1]) + calls[|calls| - 1].items
  }

  /** What the sink reported as stored: the items of the calls that succeeded. */
  function Persisted(calls: seq<SinkCall>): seq<Tweet>
  {
    if calls == [] then []
    else Persisted(calls[..|calls| - 1]) + (if calls[|calls| - 1].ok then calls[|calls| - 1].items else [])
  }

  /** Every accepted item, wherever it now is: already handed to the sink,
      in the batch, or still in the channel, oldest first. */
  function Contents(p: State): seq<Tweet>
  {
    Committed(p.calls) + p.batch + p.intake
  }

  /** What holds between events: the channel is within its capacity, the
      batch is shorter than `maxBatchSize`, a stopped worker holds no batch,
      and no sink call was ever made with an empty or oversized batch. */
  ghost predicate Inv(p: State)
  {
    && |p.intake| <= IntakeCapacity
    && |p.batch| < MaxBatchSize
    && (p.stopped ==> p.batch == [])
    && forall i :: 0 <= i < |p.calls| ==> 0 < |p.calls[i].items| <= MaxBatchSize
  }

  /** `NewHandler`: an empty channel, an empty batch, no sink call yet. */
  function Start(): (p: State)
    ensures Inv(p) && Contents(p) == [] && !p.stopped
  {
    State([], [], [], false)
  }

  /** The non-blocking send `select { case h.tweetCh <- in: … default: … }`:
      the item is appended to the channel when it has room, and otherwise
      nothing changes. */
  function TryEnqueue(p: State, t: Tweet): (r: (State, bool))
    ensures r.1 <==> |p.intake| < IntakeCapacity
    ensures r.1 ==> r.0.intake == p.intake + [t]
    ensures !r.1 ==> r.0 == p
    ensures r.0.batch == p.batch && r.0.calls == p.calls && r.0.stopped == p.stopped
    ensures Contents(r.0) == Contents(p) + (if r.1 then [t] else [])
    ensures Inv(p) ==> Inv(r.0)
  {
    if |p.intake| < IntakeCapacity then (p.(intake := p.intake + [t]), true) else (p, false)
  }

  /** The request checks of `PostTweet`, in their order: a user id in the
      context (else 401), a body that decodes (else 400), a non-empty text
      (else 400). An admitted tweet carries the authenticated user's id,
      whatever id its body gave. */
  function Validate(userId: Option<int64>, body: Option<Tweet>): (r: Result<Tweet, int>)
    ensures r.Success? <==> userId.Some? && body.Some? && body.value.text != []
    ensures r.Success? ==> r.value == body.value.(userId := userId.value)
    ensures userId.None? ==> r == Failure(StatusUnauthorized)
    ensures userId.Some? && r.Failure? ==> r == Failure(StatusBadRequest)
  {
    if userId.None? then Failure(StatusUnauthorized)
    else if body.None? then Failure(StatusBadRequest)
    else if body.value.text == [] then Failure(StatusBadRequest)
    else Success(body.value.(userId := userId.value))
  }

  /** `PostTweet`: the status it writes, and the new state. Only a 202
      changes anything, and then only by appending the stamped tweet to the
      channel; a full channel gives 503 at once. */
  function PostTweet(p: State, userId: Option<int64>, body: Option<Tweet>): (r: (State, int))
    ensures r.1 == StatusAccepted <==>
              userId.Some? && body.Some? && body.value.text != [] && |p.intake| < IntakeCapacity
    ensures r.1 == StatusServiceUnavailable <==>
              userId.Some? && body.Some? && body.value.text != [] && |p.intake| >= IntakeCapacity
    ensures r.1 == StatusUnauthorized <==> userId.None?
    ensures r.1 == StatusBadRequest <==> userId.Some? && (body.None? || body.value.text == [])
    ensures r.1 != StatusAccepted ==> r.0 == p
    ensures r.1 == StatusAccepted ==>
              r.0 == p.(intake := p.intake + [body.value.(userId := userId.value)])
    ensures Inv(p) ==> Inv(r.0)
  {
    match Validate(userId, body)
    case Failure(status) => (p, status)
    case Success(t) =>
      var (q, sent) := TryEnqueue(p, t);
      (q, if sent then StatusAccepted else StatusServiceUnavailable)
  }

  /** The `flush` closure: nothing on an empty batch; otherwise one sink
      call with the whole batch, after which the batch is empty whatever
      the sink answered. */
  function Flush(p: State, sinkOk: bool): (r: State)
    ensures r.batch == []
    ensures p.batch == [] ==> r == p
    ensures p.batch != [] ==> r.calls == p.calls + [SinkCall(p.batch, sinkOk)]
    ensures r.intake == p.intake && r.stopped == p.stopped
    ensures Contents(r) == Contents(p)
  {
    if p.batch == [] then p
    else p.(batch := [], calls := p.calls + [SinkCall(p.batch, sinkOk)])
  }

  /** `case t := <-h.tweetCh`: the oldest item of the channel is appended to
      the batch, and a batch that reaches `maxBatchSize` is flushed at once.
      The case cannot fire on an empty channel or once the worker has
      returned; then nothing changes. */
  function Receive(p: State, sinkOk: bool): (r: State)
    ensures p.stopped || p.intake == [] ==> r == p
    ensures !p.stopped && p.intake != [] ==> r.intake == p.intake[1..] && !r.stopped
    ensures !p.stopped && p.intake != [] && |p.batch| + 1 == MaxBatchSize ==>
              r.batch == [] && r.calls == p.calls + [SinkCall(p.batch + [p.intake[0]], sinkOk)]
    ensures !p.stopped && p.intake != [] && |p.batch| + 1 != MaxBatchSize ==>
              r.batch == p.batch + [p.intake[0]] && r.calls == p.calls
    ensures Contents(r) == Contents(p)
    ensures Inv(p) ==> Inv(r)
  {
    if p.stopped || p.intake == [] then p
    else
      var q := p.(intake := p.intake[1..], batch := p.batch + [p.intake[0]]);
      assert Contents(q) == Contents(p) by {
        assert p.intake == [p.intake[0]] + p.intake[1..];
      }
      if |q.batch| == MaxBatchSize then Flush(q, sinkOk) else q
  }

  /** `case <-ticker.C`: flush. On an empty batch this makes no sink call. */
  function Tick(p: State, sinkOk: bool): (r: State)
    ensures p.stopped || p.batch == [] ==> r == p
    ensures !p.stopped && p.batch != [] ==>
              r == p.(batch := [], calls := p.calls + [SinkCall(p.batch, sinkOk)])
    ensures Contents(r) == Contents(p)
    ensures Inv(p) ==> Inv(r)
  {
    if p.stopped then p else Flush(p, sinkOk)
  }

  /** `case <-ctx.Done()`: flush, then return. Whatever is still in the
      channel stays there and never reaches the sink. */
  function Shutdown(p: State, sinkOk: bool): (r: State)
    ensures r.stopped && r.intake == p.intake
    ensures !p.stopped ==> r.batch == []
    ensures p.stopped || p.batch == [] ==> r.calls == p.calls
    ensures !p.stopped && p.batch != [] ==> r.calls == p.calls + [SinkCall(p.batch, sinkOk)]
    ensures Contents(r) == Contents(p)
    ensures Inv(p) ==> Inv(r)
  {
    if p.stopped then p else Flush(p, sinkOk).(stopped := true)
  }

  /** The item an event puts into the channel, if any. */
  function Admitted(p: State, e: Event): seq<Tweet>
  {
    if e.Request? then
      match Validate(e.userId, e.body)
      case Success(t) => if |p.intake| < IntakeCapacity then [t] else []
      case Failure(_) => []
    else []
  }

  function Step(p: State, e: Event): (r: State)
    ensures Contents(r) == Contents(p) + Admitted(p, e)
    ensures Inv(p) ==> Inv(r)
  {
    match e
    case Request(userId, body) => PostTweet(p, userId, body).0
    case ItemReady(sinkOk) => Receive(p, sinkOk)
    case TickerFired(sinkOk) => Tick(p, sinkOk)
    case Cancelled(sinkOk) => Shutdown(p, sinkOk)
  }

  /** An event never rewrites the sink's log, and once the worker has
      returned an event can only add to the channel. */
  lemma StepKeepsLog(p: State, e: Event)
    ensures p.calls <= Step(p, e).calls
    ensures p.stopped ==> Step(p, e) == p || Step(p, e) == p.(intake := p.intake + Admitted(p, e))
  {
  }

  /** The state after a sequence of events. Go picks at random among the
      ready cases of a `select`; any order of events is a possible run. */
  function Run(p: State, evs: seq<Event>): State
    decreases |evs|
  {
    if evs == [] then p else Run(Step(p, evs[0]), evs[1..])
  }

  /** The items accepted (answered 202) during a run, in acceptance order. */
  function Accepted(p: State, evs: seq<Event>): seq<Tweet>
    decreases |evs|
  {
    if evs == [] then [] else Admitted(p, evs[0]) + Accepted(Step(p, evs[0]), evs[1..])
  }

  /** The invariant holds between any two events of any run: in particular
      the batch stays shorter than `maxBatchSize` and no sink call is made
      with an empty batch. */
  lemma {:induction false} RunKeepsInv(p: State, evs: seq<Event>)
    requires Inv(p)
    ensures Inv(Run(p, evs))
    decreases |evs|
  {
    if evs != [] {
      RunKeepsInv(Step(p, evs[0]), evs[1..]);
    }
  }

  /** Conservation: no item is lost, duplicated or reordered inside the
      pipeline. What was handed to the sink, then the batch, then the
      channel, is what was there before followed by what the run accepted. */
  lemma {:induction false} RunConserves(p: State, evs: seq<Event>)
    ensures Contents(Run(p, evs)) == Contents(p) + Accepted(p, evs)
    decreases |evs|
  {
    if evs != [] {
      var q := Step(p, evs[0]);
      RunConserves(q, evs[1..]);
    }
  }

  /** From a fresh handler: the sink has received exactly a prefix of the
      accepted items, in the order they were accepted, each at most once;
      the rest is the batch followed by the channel. */
  lemma CommittedInAcceptanceOrder(evs: seq<Event>)
    ensures Committed(Run(Start(), evs).calls) + Run(Start(), evs).batch + Run(Start(), evs).intake
            == Accepted(Start(), evs)
    ensures Committed(Run(Start(), evs).calls) <= Accepted(Start(), evs)
  {
    RunConserves(Start(), evs);
  }

  /** One authenticated user posting each body in turn. */
  function Requests(userId: int64, bodies: seq<Tweet>): (evs: seq<Event>)
    ensures |evs| == |bodies|
    decreases |bodies|
  {
    if bodies == [] then [] else [Request(Some(userId), Some(bodies[0]))] + Requests(userId, bodies[1..])
  }

  /** The bodies as they enter the channel, carrying the poster's id. */
  function Stamped(userId: int64, bodies: seq<Tweet>): (ts: seq<Tweet>)
    ensures |ts| == |bodies|
    decreases |bodies|
  {
    if bodies == [] then [] else [bodies[0].(userId := userId)] + Stamped(userId, bodies[1..])
  }

  lemma {:induction false} StampedPrefix(userId: int64, bodies: seq<Tweet>, n: nat)
    requires 0 < n <= |bodies|
    ensures Stamped(userId, bodies[..n]) == [bodies[0].(userId := userId)] + Stamped(userId, bodies[1..][..n - 1])
  {
    assert bodies[..n][1..] == bodies[1..][..n - 1];
  }

  /** Backpressure: while the worker takes nothing from the channel, a burst
      of valid posts is accepted exactly up to the channel's free room, in
      order, and every later post of the burst gets 503. */
  lemma {:induction false} BurstFillsFreeRoom(p: State, userId: int64, bodies: seq<Tweet>)
    requires |p.intake| <= IntakeCapacity
    requires forall i :: 0 <= i < |bodies| ==> bodies[i].text != []
    ensures var room := IntakeCapacity - |p.intake|;
            Accepted(p, Requests(userId, bodies))
            == Stamped(userId, bodies[..if |bodies| < room then |bodies| else room])
    decreases |bodies|
  {
    var room := IntakeCapacity - |p.intake|;
    if bodies != [] {
      var evs := Requests(userId, bodies);
      var t := bodies[0].(userId := userId);
      assert evs[0] == Request(Some(userId), Some(bodies[0]));
      assert evs[1..] == Requests(userId, bodies[1..]);
      assert Validate(Some(userId), Some(bodies[0])) == Success(t);
      var q := Step(p, evs[0]);
      assert q == TryEnqueue(p, t).0;
      assert Admitted(p, evs[0]) == if room > 0 then [t] else [];
      BurstFillsFreeRoom(q, userId, bodies[1..]);
      if room > 0 {
        StampedPrefix(userId, bodies, if |bodies| < room then |bodies| else room);
      }
    }
  }

  /** The sink's log only grows: a flush never revises an earlier call. */
  lemma {:induction false} CallsOnlyGrow(p: State, evs: seq<Event>)
    ensures p.calls <= Run(p, evs).calls
    decreases |evs|
  {
    if evs != [] {
      var q := Step(p, evs[0]);
      StepKeepsLog(p, evs[0]);
      CallsOnlyGrow(q, evs[1..]);
    }
  }

  /** Once the worker has returned, no event changes the batch or the sink's
      log; the channel only fills, and nothing left in it reaches the sink. */
  lemma {:induction false} StoppedIsFinal(p: State, evs: seq<Event>)
    requires p.stopped
    ensures Run(p, evs).stopped
    ensures Run(p, evs).batch == p.batch && Run(p, evs).calls == p.calls
    ensures p.intake <= Run(p, evs).intake
    decreases |evs|
  {
    if evs != [] {
      StepKeepsLog(p, evs[0]);
      StoppedIsFinal(Step(p, evs[0]), evs[1..]);
    }
  }

  lemma {:induction false} PersistedWhenAllOk(calls: seq<SinkCall>)
    requires forall i :: 0 <= i < |calls| ==> calls[i].ok
    ensures Persisted(calls) == Committed(calls)
    decreases |calls|
  {
    if calls != [] {
      PersistedWhenAllOk(calls[..|calls| - 1]);
    }
  }

  /** No double flush: when the worker has shut down with an empty channel
      and the sink never failed, the sink stored exactly the accepted items,
      in acceptance order. */
  lemma DrainedRunPersistsAccepted(evs: seq<Event>)
    requires Run(Start(), evs).stopped && Run(Start(), evs).intake == []
    requires forall i :: 0 <= i < |Run(Start(), evs).calls| ==> Run(Start(), evs).calls[i].ok
    ensures Persisted(Run(Start(), evs).calls) == Accepted(Start(), evs)
  {
    var r := Run(Start(), evs);
    RunKeepsInv(Start(), evs);
    RunConserves(Start(), evs);
    PersistedWhenAllOk(r.calls);
    assert Contents(r) == Committed(r.calls);
  }
}
