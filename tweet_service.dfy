/** `tweetService.PostTweet` of internal/tweet/service.go.

    The repository `TweetRepo` is an interface whose implementation is not
    part of this model: its answer to `InsertTweet` (the id it assigns, or
    its error) is an input, the calls made to it are returned, and the
    tweets it holds are a sequence to which a successful insert appends. */
module TweetService {
  import opened Wrappers
  import opened Models

  /** `MaxTweetLength`: the most bytes a tweet's text may have. */
  const MaxTweetLength: nat := 280

  const ErrNoUserId: Error := Error("no user id")
  const ErrTextTooLong: Error := Error("text too long")

  /** The service's answer, the `InsertTweet` calls it issued (with the
      tweet as passed, before the repository fills in its id), and the
      repository's tweets afterwards. */
  datatype Outcome = Outcome(result: Result<Tweet, Error>, inserts: seq<Tweet>, store: seq<Tweet>)

  /** What a request must satisfy for the repository to be called. */
  predicate Admissible(userId: Option<int64>, text: seq<byte>)
  {
    userId.Some? && |text| <= MaxTweetLength
  }

  /** `userId` is what `UserIDFromContext` of the root package `auth`
      (auth/middleware.go:19-22) finds in the context.
      A missing user id is reported first, then a text over 280 bytes;
      neither touches the repository. Otherwise exactly one insert is
      issued with the context's user id and the given text; the
      repository's error comes back unchanged, and on success the stored
      tweet, with the id the repository assigned, is returned. */
  function PostTweet(store: seq<Tweet>, userId: Option<int64>, text: seq<byte>, answer: Result<int64, Error>): (r: Outcome)
    ensures userId.None? ==> r == Outcome(Failure(ErrNoUserId), [], store)
    ensures userId.Some? && |text| > MaxTweetLength ==> r == Outcome(Failure(ErrTextTooLong), [], store)
    ensures r.inserts != [] <==> Admissible(userId, text)
    ensures Admissible(userId, text) ==> r.inserts == [Tweet(0, userId.value, text)]
    ensures Admissible(userId, text) && answer.Failure? ==>
              r.result == Failure(answer.error) && r.store == store
    ensures Admissible(userId, text) && answer.Success? ==>
              r.result == Success(Tweet(answer.value, userId.value, text)) && r.store == store + [r.result.value]
  {
    if userId.None? then Outcome(Failure(ErrNoUserId), [], store)
    else if |text| > MaxTweetLength then Outcome(Failure(ErrTextTooLong), [], store)
    else
      var t := Tweet(0, userId.value, text);
      match answer
      case Failure(err) => Outcome(Failure(err), [t], store)
      case Success(id) =>
        var stored := t.(id := id);
        Outcome(Success(stored), [t], store + [stored])
  }

  /** Every tweet stored through the service is within the length bound. */
  ghost predicate WithinLimit(store: seq<Tweet>)
  {
    forall i :: 0 <= i < |store| ==> |store[i].text| <= MaxTweetLength
  }

  /** One call of `PostTweet`: the context's user id, the text, and the
      repository's answer should it be asked. */
  datatype Post = Post(userId: Option<int64>, text: seq<byte>, answer: Result<int64, Error>)

  function PostAll(store: seq<Tweet>, posts: seq<Post>): seq<Tweet>
    decreases |posts|
  {
    if posts == [] then store
    else PostAll(PostTweet(store, posts[0].userId, posts[0].text, posts[0].answer).store, posts[1..])
  }

  /** However many posts are made, in whatever order, with whatever answers
      from the repository, the service never stores a text over 280 bytes,
      never removes a stored tweet, and stores at most one tweet per post. */
  lemma {:induction false} PostAllKeepsLimit(store: seq<Tweet>, posts: seq<Post>)
    requires WithinLimit(store)
    ensures WithinLimit(PostAll(store, posts))
    ensures store <= PostAll(store, posts)
    ensures |PostAll(store, posts)| <= |store| + |posts|
    decreases |posts|
  {
    if posts != [] {
      var next := PostTweet(store, posts[0].userId, posts[0].text, posts[0].answer).store;
      PostAllKeepsLimit(next, posts[1..]);
    }
  }
}
