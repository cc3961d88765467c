/** Field resolvers of the User object type: `profile` and `posts` load by
    the user's own id; `userSubscribedTo` and `subscribedToUser` turn the
    edge lists already on the parent into an id list for one `loadMany`. */
module UserFields {
  import opened Wrappers
  import opened Entities
  import opened Alignment
  import opened Loaders

  /** The author of every edge, in edge order. */
  function AuthorIds(edges: seq<Edge>): (r: seq<Id>)
    ensures |r| == |edges|
    ensures forall i :: 0 <= i < |edges| ==> r[i] == edges[i].authorId
  {
    seq(|edges|, i requires 0 <= i < |edges| => edges[i].authorId)
  }

  /** The subscriber of every edge, in edge order. */
  function SubscriberIds(edges: seq<Edge>): (r: seq<Id>)
    ensures |r| == |edges|
    ensures forall i :: 0 <= i < |edges| ==> r[i] == edges[i].subscriberId
  {
    seq(|edges|, i requires 0 <= i < |edges| => edges[i].subscriberId)
  }

  /** An edge list that is absent or empty makes a resolver return nothing. */
  predicate HasEdges(edges: Option<seq<Edge>>)
  {
    edges.Some? && |edges.value| > 0
  }

  /** The keys `userSubscribedTo` passes to `loadMany`, or absent when it
      issues no load. */
  function SubscribedAuthorIds(parent: User): (r: Option<seq<Id>>)
    ensures r.None? <==> !HasEdges(parent.userSubscribedTo)
    ensures r.Some? ==> |r.value| == |parent.userSubscribedTo.value|
    ensures r.Some? ==> forall i :: 0 <= i < |r.value| ==>
              r.value[i] == parent.userSubscribedTo.value[i].authorId
  {
    if HasEdges(parent.userSubscribedTo) then Some(AuthorIds(parent.userSubscribedTo.value))
    else None
  }

  /** The keys `subscribedToUser` passes to `loadMany`, or absent when it
      issues no load. */
  function FollowerIds(parent: User): (r: Option<seq<Id>>)
    ensures r.None? <==> !HasEdges(parent.subscribedToUser)
    ensures r.Some? ==> |r.value| == |parent.subscribedToUser.value|
    ensures r.Some? ==> forall i :: 0 <= i < |r.value| ==>
              r.value[i] == parent.subscribedToUser.value[i].subscriberId
  {
    if HasEdges(parent.subscribedToUser) then Some(SubscriberIds(parent.subscribedToUser.value))
    else None
  }

  /** `loadMany(keys)` on the user loader: each key answered as the user
      batch function answers it over the rows the storage fetched. */
  function LoadManyUsers(keys: seq<Id>, fetched: Result<seq<User>>): (r: Result<seq<Option<User>>>)
    ensures fetched.Err? ==> r == Err(fetched.error)
    ensures fetched.Ok? ==> r.Ok? && FirstAligned(keys, fetched.value, UserKey, r.value)
  {
    UserBatch(keys, fetched)
  }

  /** `User.userSubscribedTo`: nothing when the parent carries no edges;
      otherwise one answer per edge, in edge order, each the first fetched
      user whose id is that edge's author (absent when none was fetched). */
  function UserSubscribedTo(parent: User, fetched: Result<seq<User>>): (r: Option<Result<seq<Option<User>>>>)
    ensures r.None? <==> !HasEdges(parent.userSubscribedTo)
    ensures r.Some? && fetched.Err? ==> r.value == Err(fetched.error)
    ensures r.Some? && fetched.Ok? ==>
              && r.value.Ok?
              && FirstAligned(AuthorIds(parent.userSubscribedTo.value), fetched.value, UserKey, r.value.value)
              && forall i :: 0 <= i < |r.value.value| ==>
                   var authorId := parent.userSubscribedTo.value[i].authorId;
                   && (r.value.value[i].None? <==> NoMatch(fetched.value, UserKey, authorId))
                   && (r.value.value[i].Some? ==> r.value.value[i].value.id == authorId)
  {
    match SubscribedAuthorIds(parent)
    case None => None
    case Some(keys) =>
      var answers := LoadManyUsers(keys, fetched);
      assert fetched.Ok? ==> forall i :: 0 <= i < |keys| && answers.value[i].Some? ==> answers.value[i].value.id == keys[i];
      Some(answers)
  }

  /** `User.subscribedToUser`: nothing when the parent carries no edges;
      otherwise one answer per edge, in edge order, each the first fetched
      user whose id is that edge's subscriber. */
  function SubscribedToUser(parent: User, fetched: Result<seq<User>>): (r: Option<Result<seq<Option<User>>>>)
    ensures r.None? <==> !HasEdges(parent.subscribedToUser)
    ensures r.Some? && fetched.Err? ==> r.value == Err(fetched.error)
    ensures r.Some? && fetched.Ok? ==>
              && r.value.Ok?
              && FirstAligned(SubscriberIds(parent.subscribedToUser.value), fetched.value, UserKey, r.value.value)
              && forall i :: 0 <= i < |r.value.value| ==>
                   var subscriberId := parent.subscribedToUser.value[i].subscriberId;
                   && (r.value.value[i].None? <==> NoMatch(fetched.value, UserKey, subscriberId))
                   && (r.value.value[i].Some? ==> r.value.value[i].value.id == subscriberId)
  {
    match FollowerIds(parent)
    case None => None
    case Some(keys) =>
      var answers := LoadManyUsers(keys, fetched);
      assert fetched.Ok? ==> forall i :: 0 <= i < |keys| && answers.value[i].Some? ==> answers.value[i].value.id == keys[i];
      Some(answers)
  }

  /** `User.profile`: the profile loader asked for the parent's own id. */
  function ProfileField(parent: User, fetched: Result<seq<Profile>>): (r: Result<Option<Profile>>)
    ensures fetched.Err? ==> r == Err(fetched.error)
    ensures fetched.Ok? ==> r.Ok?
    ensures r.Ok? ==> (r.value.None? <==> NoMatch(fetched.value, ProfileUserKey, parent.id))
    ensures r.Ok? && r.value.Some? ==>
              exists j :: IsFirstMatch(fetched.value, ProfileUserKey, parent.id, j) && fetched.value[j] == r.value.value
  {
    match ProfileBatch([parent.id], fetched)
    case Err(e) => Err(e)
    case Ok(answers) => Ok(answers[0])
  }

  /** `User.posts`: the post loader asked for the parent's own id; a user
      without posts gets the empty list. */
  function PostsField(parent: User, fetched: Result<seq<Post>>): (r: Result<seq<Post>>)
    ensures fetched.Err? ==> r == Err(fetched.error)
    ensures fetched.Ok? ==> r.Ok? && IsGroup(fetched.value, PostAuthorKey, parent.id, r.value)
  {
    match PostBatch([parent.id], fetched)
    case Err(e) => Err(e)
    case Ok(groups) => Ok(groups[0])
  }

  /** Whichever other keys share the profile loader's batch, the position of
      the parent's id receives the answer `profile` resolves to. */
  lemma ProfileFieldInAnyBatch(parent: User, window: seq<Id>, rows: seq<Profile>, i: int)
    requires 0 <= i < |window| && window[i] == parent.id
    ensures ProfileBatch(window, Ok(rows)).value[i] == ProfileField(parent, Ok(rows)).value
  {
  }

  /** Whichever other keys share the post loader's batch, the position of the
      parent's id receives the list `posts` resolves to. */
  lemma PostsFieldInAnyBatch(parent: User, window: seq<Id>, rows: seq<Post>, i: int)
    requires 0 <= i < |window| && window[i] == parent.id
    ensures PostBatch(window, Ok(rows)).value[i] == PostsField(parent, Ok(rows)).value
  {
  }
}
