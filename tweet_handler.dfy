/** `TweetHandler` of internal/tweet/handler.go in its imperative form: the
    channel, the worker's batch and the sink's log are fields that the
    request path and the worker's event cases update in place. Each method
    is one `select` case (or the request path) and is proved to make
    exactly the step that module Pipeline specifies; what holds across
    steps is proved there. */
module TweetHandler {
  import opened Wrappers
  import opened Models
  import Pipeline

  class Handler {
    /** The buffered channel `tweetCh`, oldest first. */
    var intake: seq<Tweet>
    /** The worker's `batch`. */
    var batch: seq<Tweet>
    /** Every call of the sink `svc.Post`, with its answer. */
    var calls: seq<Pipeline.SinkCall>
    /** The worker loop has returned. */
    var stopped: bool
    /** Every tweet answered with 202, in order. */
    ghost var accepted: seq<Tweet>

    ghost function State(): Pipeline.State
      reads this
    {
      Pipeline.State(intake, batch, calls, stopped)
    }

    /** Between events the pipeline invariant holds, and every accepted
        tweet is in the sink's log, the batch or the channel, in order. */
    ghost predicate Valid()
      reads this
    {
      Pipeline.Inv(State()) && Pipeline.Contents(State()) == accepted
    }

    /** `NewHandler`: an empty channel of capacity 200, an empty batch. */
    constructor ()
      ensures Valid() && State() == Pipeline.Start() && accepted == []
    {
      intake, batch, calls, stopped := [], [], [], false;
      accepted := [];
    }

    /** The non-blocking send into `tweetCh`. */
    method TryEnqueue(t: Tweet) returns (sent: bool)
      requires Valid()
      modifies this
      ensures Valid()
      ensures (State(), sent) == Pipeline.TryEnqueue(old(State()), t)
      ensures accepted == old(accepted) + (if sent then [t] else [])
    {
      if |intake| < Pipeline.IntakeCapacity {
        intake := intake + [t];
        accepted := accepted + [t];
        sent := true;
      } else {
        sent := false;
      }
    }

    /** `PostTweet`, with the HTTP exchange reduced to the user id found in
        the request's context, the decoded body (`None` when it is not
        valid JSON) and the status written back. */
    method PostTweet(userId: Option<int64>, body: Option<Tweet>) returns (status: int)
      requires Valid()
      modifies this
      ensures Valid()
      ensures (State(), status) == Pipeline.PostTweet(old(State()), userId, body)
      ensures accepted == old(accepted) + Pipeline.Admitted(old(State()), Pipeline.Request(userId, body))
    {
      if userId.None? {
        return Pipeline.StatusUnauthorized;
      }
      if body.None? {
        return Pipeline.StatusBadRequest;
      }
      var t := body.value;
      if t.text == [] {
        return Pipeline.StatusBadRequest;
      }
      t := t.(userId := userId.value);
      var sent := TryEnqueue(t);
      status := if sent then Pipeline.StatusAccepted else Pipeline.StatusServiceUnavailable;
    }

    /** The `flush` closure. It is also called on a batch of exactly
        `maxBatchSize` items, which lies outside `Valid()`. */
    method Flush(sinkOk: bool)
      modifies this
      ensures State() == Pipeline.Flush(old(State()), sinkOk)
      ensures accepted == old(accepted)
    {
      if |batch| == 0 {
        return;
      }
      calls := calls + [Pipeline.SinkCall(batch, sinkOk)];
      batch := [];
    }

    /** `case t := <-h.tweetCh`; `received` is false when the case cannot
        fire (empty channel, or the worker has returned). */
    method Receive(sinkOk: bool) returns (received: bool)
      requires Valid()
      modifies this
      ensures Valid() && accepted == old(accepted)
      ensures State() == Pipeline.Receive(old(State()), sinkOk)
      ensures received <==> !old(stopped) && old(intake) != []
    {
      ghost var p := State();
      if stopped || |intake| == 0 {
        return false;
      }
      var t := intake[0];
      intake := intake[1..];
      batch := batch + [t];
      if |batch| == Pipeline.MaxBatchSize {
        ghost var q := State();
        Flush(sinkOk);
        assert State() == Pipeline.Flush(q, sinkOk);
      }
      assert State() == Pipeline.Receive(p, sinkOk);
      received := true;
    }

    /** `case <-ticker.C`. */
    method Tick(sinkOk: bool)
      requires Valid()
      modifies this
      ensures Valid() && accepted == old(accepted)
      ensures State() == Pipeline.Tick(old(State()), sinkOk)
    {
      ghost var p := State();
      if stopped {
        return;
      }
      Flush(sinkOk);
      assert State() == Pipeline.Tick(p, sinkOk);
    }

    /** `case <-ctx.Done()`: flush, then the loop returns. */
    method Shutdown(sinkOk: bool)
      requires Valid()
      modifies this
      ensures Valid() && accepted == old(accepted)
      ensures State() == Pipeline.Shutdown(old(State()), sinkOk)
    {
      ghost var p := State();
      if stopped {
        return;
      }
      Flush(sinkOk);
      stopped := true;
      assert State() == Pipeline.Shutdown(p, sinkOk);
    }
  }
}
