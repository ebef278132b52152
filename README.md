# Tweet write-batching pipeline and service guards — a Dafny model

This project models the core of a small social-network backend written in Go:

- **The tweet write-batching pipeline** (`internal/tweet/handler.go`).
  `PostTweet` validates a request and offers the tweet to a buffered channel
  of capacity 200 without blocking: 202 when it fits, 503 when the channel is
  full. A single worker loop owns a batch capped at `maxBatchSize = 300`. Each
  iteration of its `select` handles one event:
  - an item taken from the channel is appended, and a full batch is flushed;
  - a ticker tick flushes;
  - context cancellation flushes and returns.

  A flush does nothing on an empty batch. Otherwise it hands the batch to the
  sink, ignores the sink's error and empties the batch.
- **Tweet posting** (`internal/tweet/service.go`): a missing user id, then a
  text over 280 bytes, is refused before the repository is called.
- **Follow and unfollow** (`internal/user/service.go`): self-follows are
  refused, insert failures are replaced by one fixed error, and unfollow
  returns the repository's answer.
- **Timeline assembly** (`internal/timeline/service.go`): follows are mapped
  to followed ids in order, then their tweets are fetched; an error stops
  the pipeline at once.

## Layout

- `wrappers.dfy`, module `Wrappers`: `Option` and `Result`.
- `models.dfy`, module `Models`: `int64`, `byte`, `Tweet`, `Follow` and
  `Error`. A Go `error` is modelled by its message.
- `pipeline.dfy`, module `Pipeline`: the handler and its worker as a state
  machine on values. The state holds:
  - the channel,
  - the batch,
  - the log of sink calls, each with the answer the sink gave,
  - whether the worker has returned.

  It also holds one function per event, and `Step`/`Run` over any sequence of
  events. Go picks at random among the ready cases of a `select`, so any order
  of events is a possible run. The invariants and trace properties are proved
  here.
- `tweet_handler.dfy`, module `TweetHandler`: class `Handler`, the
  imperative form. The channel, the batch, the sink log and the stop flag
  are fields that the methods update in place. Each method is proved to make
  exactly the step that `Pipeline` specifies. Every event method keeps
  `Valid()`, which includes conservation against a ghost log of accepted
  tweets. `Flush`, a helper of `Receive`, is not an event: it is also
  called on a full batch of 300, so it neither needs nor keeps `Valid()`.
- `tweet_service.dfy`, `user_service.dfy`, `timeline_service.dfy`: the
  three services. A repository or service that is called only through an
  interface is represented by its answers, which are inputs. The calls
  issued to it are returned so that "the repository is not called" can be
  stated. The abstract store is a sequence of tweets, a set of follow edges,
  or the sink's batch log.

Context values are `Option<int64>`, the `(userId, ok)` pair that a
`UserIDFromContext` returns. There are two of these functions, and their text
is identical:
- The request path reads the id with the one in package `internal/auth`
  (`internal/auth/context.go:13-16`).
- `tweetService.PostTweet` reads it with the one in the root package `auth`
  (`auth/middleware.go:19-22`), which `internal/tweet/service.go:7` imports.

Each package declares its own `contextKey` type, so the two keys differ. A
context filled by `internal/auth.WithUserID` reads as "no user id" in the
service. The model takes the id that each function returns as an input, so it
does not tie the two together.

## Model

| member | source | states |
|---|---|---|
| `Pipeline.Start` | internal/tweet/handler.go:22-32 | A new handler has an empty channel, an empty batch and no sink call, and satisfies the pipeline invariant. |
| `Pipeline.Validate` | internal/tweet/handler.go:35-53 | A missing user id gives 401 whatever the body. Otherwise a body that does not decode, or an empty text, gives 400. An admitted tweet carries the authenticated user's id, not the id in the body. |
| `Pipeline.TryEnqueue` | internal/tweet/handler.go:55-60 | The send succeeds iff the channel holds fewer than 200 items. On success the item is appended at the tail. On failure nothing changes. The batch and sink log are never touched. |
| `Pipeline.PostTweet` | internal/tweet/handler.go:34-61 | 202 iff the request is authenticated, decodes, has non-empty text and the channel has room. 503 iff it is valid but the channel is full. 401 iff there is no user id. 400 iff the body is bad or the text is empty. Every status other than 202 leaves the state unchanged. A 202 appends the tweet, stamped with the user's id, to the channel. |
| `Pipeline.Flush` | internal/tweet/handler.go:86-92 | An empty batch gives no sink call and no change. Otherwise there is exactly one sink call with the whole batch in order. Afterwards the batch is empty whatever the sink answered. No item is lost or reordered. |
| `Pipeline.Receive` | internal/tweet/handler.go:99-104 | The head of the channel is moved to the batch. A batch that thereby reaches 300 is flushed in the same step, as one call. Nothing happens when the channel is empty or the worker has returned. The invariant is preserved, and so are the items. |
| `Pipeline.Tick` | internal/tweet/handler.go:105-109 | A tick flushes a non-empty batch as one call. On an empty batch, or after the worker has returned, it changes nothing. |
| `Pipeline.Shutdown` | internal/tweet/handler.go:96-98 | Cancellation flushes a non-empty batch once, makes no call on an empty one, and stops the worker. The channel's contents are left where they are. |
| `Pipeline.Step` | internal/tweet/handler.go:94-111 | Each event keeps the invariant. It changes the accepted items only by appending what the event admitted. |
| `Pipeline.StepKeepsLog` | internal/tweet/handler.go:86-111 | No event rewrites an earlier sink call. After the worker has returned, an event at most appends its admitted tweet to the channel. |
| `Pipeline.RunKeepsInv` | internal/tweet/handler.go:80-111 | After any sequence of events: the channel holds at most 200 items, the batch is shorter than 300, a stopped worker has no batch, and every sink call got between 1 and 300 items. |
| `Pipeline.RunConserves` | internal/tweet/handler.go:84-111 | Across any run, the sink log's items, then the batch, then the channel equal what was there before, followed by the items accepted during the run, in order. |
| `Pipeline.CommittedInAcceptanceOrder` | internal/tweet/handler.go:55-111 | From a new handler, the items handed to the sink are a prefix of the accepted items in acceptance order. So each item reaches the sink at most once. |
| `Pipeline.BurstFillsFreeRoom` | internal/tweet/handler.go:25-60 | While the worker takes nothing, a burst of valid posts is accepted exactly up to the channel's free room, in order, and every later post is refused. |
| `Pipeline.CallsOnlyGrow` | internal/tweet/handler.go:86-111 | The sink log is append-only across any run. |
| `Pipeline.StoppedIsFinal` | internal/tweet/handler.go:96-98 | After the worker has returned, no event changes the batch or the sink log. The channel only fills, so nothing left in it ever reaches the sink. |
| `Pipeline.DrainedRunPersistsAccepted` | internal/tweet/handler.go:86-111 | The worker has shut down, the channel is empty and the sink never failed. Then the sink stored exactly the accepted items, in order, with none twice. |
| `TweetHandler.Handler.constructor` | internal/tweet/handler.go:22-32 | `NewHandler` builds the initial state of `Pipeline.Start`. |
| `TweetHandler.Handler.TryEnqueue` | internal/tweet/handler.go:55-60 | The in-place send makes the `Pipeline.TryEnqueue` step and logs the tweet as accepted iff it was sent. |
| `TweetHandler.Handler.PostTweet` | internal/tweet/handler.go:34-61 | The request path returns the status and makes the state change of `Pipeline.PostTweet`. |
| `TweetHandler.Handler.Flush` | internal/tweet/handler.go:86-92 | The closure makes the `Pipeline.Flush` step. It is also called with a full batch of 300, so it asks for nothing. |
| `TweetHandler.Handler.Receive` | internal/tweet/handler.go:99-104 | The receive case makes the `Pipeline.Receive` step. It reports whether it could fire and keeps `Valid()`. |
| `TweetHandler.Handler.Tick` | internal/tweet/handler.go:105-109 | The ticker case makes the `Pipeline.Tick` step and keeps `Valid()`. |
| `TweetHandler.Handler.Shutdown` | internal/tweet/handler.go:96-98 | The cancellation case makes the `Pipeline.Shutdown` step and keeps `Valid()`. |
| `TweetService.PostTweet` | internal/tweet/service.go:28-48 | The user id is what `UserIDFromContext` of the root `auth` package (`auth/middleware.go:19-22`) finds. No user id gives "no user id" with no repository call. That check comes before the length check. A text over 280 bytes gives `ErrTextTooLong` with no call. Exactly 280 bytes passes. Otherwise there is exactly one insert with the context's user id and the given text. The repository's error is returned unchanged and nothing is stored. On success the stored tweet is returned with its assigned id. |
| `TweetService.PostAllKeepsLimit` | internal/tweet/service.go:34-47 | Across any sequence of posts, no stored text exceeds 280 bytes. Stored tweets are never removed, and each post stores at most one. |
| `UserService.Follow` | internal/user/service.go:74-84 | `Follow(a, a)` gives the self-follow error with no repository call. Otherwise there is exactly one `InsertFollow(a, b)`. Any failure becomes "could not follow user" and leaves the relation unchanged. Success gives nil and adds the edge. |
| `UserService.Unfollow` | internal/user/service.go:86-92 | `Unfollow(a, a)` gives the self-follow error with no call. Otherwise there is exactly one `DeleteFollow(a, b)`, whose result is returned unchanged. Only a success removes the edge. |
| `UserService.ApplyAllKeepsNoSelfFollow` | internal/user/service.go:74-92 | Across any sequence of follows and unfollows, whatever the repository answers, nobody comes to follow themself. |
| `UserService.FollowPersists` | internal/user/service.go:79-91 | A follow edge stays until a successful unfollow of that same pair. |
| `TimelineService.GetTweets` | internal/timeline/service.go:27-46 | If `GetFollows` fails, its error is returned and `GetTweetsFromUsers` is not called. Otherwise it is called with one id per follow, where entry i is follow i's `FollowedID`. With no follows, the list is empty. Its answer, tweets or error, is returned unchanged. |

## Left out

- HTTP and JSON plumbing is left out: request decoding, `http.Error`, response writing, and `GetTweet` with its URL parameter parsing. `PostTweet` is reduced to the context's user id, the decoded body (or its absence) and the status.
- Goroutines, channel synchronisation, `time.Ticker` and the 50 ms period are left out. Each `select` iteration is one event, and the ticker is a bare `TickerFired` event with no notion of time.
- The sink is left out as code. It is the tweet service's `Post`, which the `TweetService` interface at `internal/tweet/service.go:16-18` does not declare. It is represented by the log of calls and the answer it gave, which is an input.
- Slice aliasing from `batch[:0]` is left out. The sink receives a value copy of the batch.
- Logging is left out (`log.Printf` in the worker and the services).
- `CreatedAt` on tweets is left out. It has no json tag (`internal/tweet/model.go:9`). So `PostTweet` decodes a client-supplied `CreatedAt` into the tweet and passes it to the channel unchanged, as it does the body's `ID`. The GORM `autoCreateTime` setting fills the field only when it is zero. The model keeps the body's `id` but has no `CreatedAt` field.
- Repositories are abstract: the GORM repositories, bcrypt, JWT, and `Register`/`Login` are left out. For example, the model does not derive `DeleteFollow`'s "does not follow" error from the relation; the answer is an input.
- `GetFollows` and `GetTweetsFromUsers` are given as functions from argument to answer. Neither the `UserService` interface at `internal/user/service.go:13-19` nor the `TweetService` interface at `internal/tweet/service.go:16-18` declares them.
- Legacy copies are left out. They are not wired in `main.go`: `api/tweet.go`, `internal/user/user_service.go`, `internal/tweet/tweet_service.go`, and `internal/handler/tweet_handler.go`. In `auth/middleware.go` only `Middleware` is unused. Its `UserIDFromContext` is the one the tweet service reads.
- The worker's context is `context.Background()` and is never cancelled in `main.go`. `Shutdown` is modelled anyway, as an event.
- The shutdown flush passes an already-cancelled context to the sink. The `flush` closure captures the worker's `ctx` (`internal/tweet/handler.go:86-92`), and on `case <-ctx.Done()` (`internal/tweet/handler.go:96-97`) it calls `h.svc.Post(ctx, batch)` with that context. A sink that honours its context would fail that last call, and the error is dropped. The model leaves the sink's answer (`sinkOk`) unconstrained, so it covers this case. But the premise of `Pipeline.DrainedRunPersistsAccepted`, that every call succeeded, may then fail for the final call. `Post` is not part of this model, so this is not established either way.
- Three behaviours of the code that a reader might not expect, and that the model follows:
  - A shutdown flush of an empty batch makes no sink call (`internal/tweet/handler.go:87-88`).
  - A slot in the channel is freed when the worker takes the item, not when the batch is flushed (`internal/tweet/handler.go:99-100`).
  - After the worker has returned, `PostTweet` still fills the channel up to 200 and then answers 503 (`internal/tweet/handler.go:55-60`).
- The request path checks only that the text is non-empty. The 280-byte bound belongs to the service's `PostTweet`, which the batching path does not call.
