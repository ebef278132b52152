/** `Follow` and `Unfollow` of internal/user/service.go.

    The repository `UserRepo` is an interface whose implementation is not
    part of this model: the follow relation it holds is a set of edges, its
    answer to `InsertFollow` or `DeleteFollow` (an error or none) is an
    input, and the calls made to it are returned. A successful insert adds
    the edge; a successful delete removes it. */
module UserService {
  import opened Wrappers
  import opened Models

  /** `follower` follows `followed`. */
  datatype Edge = Edge(follower: int64, followed: int64)

  datatype RepoCall =
    | InsertFollow(followerId: int64, followedId: int64)
    | DeleteFollow(followerId: int64, followedId: int64)

  /** The error returned (`None` for nil), the follow relation afterwards,
      and the repository calls issued. */
  datatype Outcome = Outcome(err: Option<Error>, follows: set<Edge>, calls: seq<RepoCall>)

  const ErrSameUser: Error := Error("userId cannot be the same as targetUserId")
  const ErrCouldNotFollow: Error := Error("could not follow user")

  /** A user following themself is refused without touching the
      repository; any insert failure is reported as the one fixed error;
      otherwise exactly one `InsertFollow(followerId, followedId)` is made
      and nil returned. */
  function Follow(follows: set<Edge>, followerId: int64, followedId: int64, insertErr: Option<Error>): (r: Outcome)
    ensures r.err.None? <==> followerId != followedId && insertErr.None?
    ensures followerId == followedId ==> r == Outcome(Some(ErrSameUser), follows, [])
    ensures followerId != followedId ==> r.calls == [InsertFollow(followerId, followedId)]
    ensures followerId != followedId && insertErr.Some? ==>
              r.err == Some(ErrCouldNotFollow) && r.follows == follows
    ensures r.err.None? ==> r.follows == follows + {Edge(followerId, followedId)}
  {
    if followerId == followedId then Outcome(Some(ErrSameUser), follows, [])
    else
      var calls := [InsertFollow(followerId, followedId)];
      if insertErr.Some? then Outcome(Some(ErrCouldNotFollow), follows, calls)
      else Outcome(None, follows + {Edge(followerId, followedId)}, calls)
  }

  /** The same self-check; otherwise one `DeleteFollow` whose result is
      returned as it is. */
  function Unfollow(follows: set<Edge>, followerId: int64, followedId: int64, deleteErr: Option<Error>): (r: Outcome)
    ensures followerId == followedId ==> r == Outcome(Some(ErrSameUser), follows, [])
    ensures followerId != followedId ==>
              r.err == deleteErr && r.calls == [DeleteFollow(followerId, followedId)]
    ensures followerId != followedId && deleteErr.Some? ==> r.follows == follows
    ensures r.err.None? ==> r.follows == follows - {Edge(followerId, followedId)}
  {
    if followerId == followedId then Outcome(Some(ErrSameUser), follows, [])
    else
      var calls := [DeleteFollow(followerId, followedId)];
      if deleteErr.Some? then Outcome(deleteErr, follows, calls)
      else Outcome(None, follows - {Edge(followerId, followedId)}, calls)
  }

  /** Nobody follows themself. */
  ghost predicate NoSelfFollow(follows: set<Edge>)
  {
    forall e :: e in follows ==> e.follower != e.followed
  }

  /** A call of `Follow` or `Unfollow`, with the repository's answer. */
  datatype Request =
    | FollowRequest(followerId: int64, followedId: int64, repoErr: Option<Error>)
    | UnfollowRequest(followerId: int64, followedId: int64, repoErr: Option<Error>)

  function Apply(follows: set<Edge>, q: Request): Outcome
  {
    match q
    case FollowRequest(a, b, err) => Follow(follows, a, b, err)
    case UnfollowRequest(a, b, err) => Unfollow(follows, a, b, err)
  }

  function ApplyAll(follows: set<Edge>, qs: seq<Request>): set<Edge>
    decreases |qs|
  {
    if qs == [] then follows else ApplyAll(Apply(follows, qs[0]).follows, qs[1..])
  }

  /** The self-checks keep the follow relation irreflexive across any
      sequence of follows and unfollows, whatever the repository answers. */
  lemma {:induction false} ApplyAllKeepsNoSelfFollow(follows: set<Edge>, qs: seq<Request>)
    requires NoSelfFollow(follows)
    ensures NoSelfFollow(ApplyAll(follows, qs))
    decreases |qs|
  {
    if qs != [] {
      ApplyAllKeepsNoSelfFollow(Apply(follows, qs[0]).follows, qs[1..]);
    }
  }

  /** A follow that succeeded is present until an unfollow of the same pair
      succeeds: requests about other pairs, and failed ones, leave it. */
  lemma {:induction false} FollowPersists(follows: set<Edge>, qs: seq<Request>, e: Edge)
    requires e in follows
    requires forall i :: 0 <= i < |qs| && qs[i].UnfollowRequest? && qs[i].repoErr.None? ==>
               Edge(qs[i].followerId, qs[i].followedId) != e
    ensures e in ApplyAll(follows, qs)
    decreases |qs|
  {
    if qs != [] {
      FollowPersists(Apply(follows, qs[0]).follows, qs[1..], e);
    }
  }
}
