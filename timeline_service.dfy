/** `timelineService.GetTweets` of internal/timeline/service.go.

    The two services it calls are interfaces whose implementations are not
    part of this model: `GetFollows` and `GetTweetsFromUsers` are given as
    functions from their argument to their answer. */
module TimelineService {
  import opened Wrappers
  import opened Models

  /** Fetches the user's follows; on error returns it and calls nothing
      else. Otherwise builds the followed ids, one per follow and in the
      same order (an empty list when there are none), passes them to
      `GetTweetsFromUsers` and returns its answer as it is. `fetched` is
      the argument of that call, `None` when it was not made. */
  method GetTweets(userId: int64,
                   getFollows: int64 -> Result<seq<Follow>, Error>,
                   getTweetsFromUsers: seq<int64> -> Result<seq<Tweet>, Error>)
    returns (r: Result<seq<Tweet>, Error>, fetched: Option<seq<int64>>)
    ensures getFollows(userId).Failure? ==>
              r == Failure(getFollows(userId).error) && fetched == None
    ensures getFollows(userId).Success? ==>
              && fetched.Some?
              && |fetched.value| == |getFollows(userId).value|
              && (forall i :: 0 <= i < |fetched.value| ==>
                    fetched.value[i] == getFollows(userId).value[i].followedId)
              && r == getTweetsFromUsers(fetched.value)
  {
    var follows := getFollows(userId);
    if follows.Failure? {
      return Failure(follows.error), None;
    }
    var fs := follows.value;
    var userIds: seq<int64> := [];
    for i := 0 to |fs|
      invariant |userIds| == i
      invariant forall k :: 0 <= k < i ==> userIds[k] == fs[k].followedId
    {
      userIds := userIds + [fs[i].followedId];
    }
    fetched := Some(userIds);
    var tweets := getTweetsFromUsers(userIds);
    if tweets.Failure? {
      return Failure(tweets.error), fetched;
    }
    r := Success(tweets.value);
  }
}
