/** The Mutation root as transitions of an abstract store. Every storage call
    is replaced by its outcome, given as an input: a failed call carries the
    error the storage threw; a successful create carries the id the storage
    assigned, and a successful update carries the row the storage wrote. */
module MutationRoot {
  import opened Wrappers
  import opened Entities
  import opened Alignment

  datatype Store = Store(
    users: map<Id, UserRecord>,
    posts: map<Id, Post>,
    profiles: map<Id, Profile>,
    edges: seq<Edge>)

  /** The store after a mutation, and the value (or field error) it answers. */
  datatype Step<T> = Step(store: Store, answer: Result<T>)

  datatype UserInput = UserInput(name: string, balance: int)
  datatype PostInput = PostInput(title: string, content: string, authorId: Id)
  datatype ProfileInput = ProfileInput(isMale: bool, yearOfBirth: int, memberTypeId: MemberTypeId, userId: Id)

  /** `m2` holds `v` at `k` and agrees with `m1` on every other key. */
  ghost predicate WrittenAt<V>(m1: map<Id, V>, m2: map<Id, V>, k: Id, v: V)
  {
    && k in m2 && m2[k] == v
    && forall x :: x != k ==> (x in m1 <==> x in m2) && (x in m1 ==> m1[x] == m2[x])
  }

  /** `m2` lacks `k` and agrees with `m1` on every other key. */
  ghost predicate RemovedAt<V>(m1: map<Id, V>, m2: map<Id, V>, k: Id)
  {
    && k !in m2
    && forall x :: x != k ==> (x in m1 <==> x in m2) && (x in m1 ==> m1[x] == m2[x])
  }

  /** The error-to-boolean policy of `deleteUser`, `deleteProfile` and
      `unsubscribeFrom`: a storage error is caught and reported as false. */
  function Swallowed(outcome: Result<()>): (r: Result<bool>)
    ensures r.Ok?
    ensures r.value <==> outcome.Ok?
  {
    match outcome
    case Ok(_) => Ok(true)
    case Err(_) => Ok(false)
  }

  function CreateUser(s: Store, dto: UserInput, created: Result<Id>): (r: Step<UserRecord>)
    ensures created.Err? ==> r == Step(s, Err(created.error))
    ensures created.Ok? ==>
              && r.answer == Ok(UserRecord(created.value, dto.name, dto.balance))
              && WrittenAt(s.users, r.store.users, created.value, r.answer.value)
              && r.store == s.(users := r.store.users)
  {
    match created
    case Err(e) => Step(s, Err(e))
    case Ok(id) =>
      var row := UserRecord(id, dto.name, dto.balance);
      Step(s.(users := s.users[id := row]), Ok(row))
  }

  /** `changeUser`: only the record under `id` changes. */
  function ChangeUser(s: Store, id: Id, updated: Result<UserRecord>): (r: Step<UserRecord>)
    ensures updated.Err? ==> r == Step(s, Err(updated.error))
    ensures updated.Ok? ==>
              && r.answer == updated
              && WrittenAt(s.users, r.store.users, id, updated.value)
              && r.store == s.(users := r.store.users)
  {
    match updated
    case Err(e) => Step(s, Err(e))
    case Ok(row) => Step(s.(users := s.users[id := row]), Ok(row))
  }

  /** `deleteUser`: true when the storage deleted, false when it threw; the
      error never reaches the caller. */
  function DeleteUser(s: Store, id: Id, deleted: Result<()>): (r: Step<bool>)
    ensures r.answer.Ok?
    ensures r.answer.value <==> deleted.Ok?
    ensures deleted.Ok? ==> RemovedAt(s.users, r.store.users, id) && r.store == s.(users := r.store.users)
    ensures deleted.Err? ==> r.store == s
  {
    var after := if deleted.Ok? then s.(users := s.users - {id}) else s;
    Step(after, Swallowed(deleted))
  }

  function CreatePost(s: Store, dto: PostInput, created: Result<Id>): (r: Step<Post>)
    ensures created.Err? ==> r == Step(s, Err(created.error))
    ensures created.Ok? ==>
              && r.answer == Ok(Post(created.value, dto.title, dto.content, dto.authorId))
              && WrittenAt(s.posts, r.store.posts, created.value, r.answer.value)
              && r.store == s.(posts := r.store.posts)
  {
    match created
    case Err(e) => Step(s, Err(e))
    case Ok(id) =>
      var row := Post(id, dto.title, dto.content, dto.authorId);
      Step(s.(posts := s.posts[id := row]), Ok(row))
  }

  /** `changePost`: only the record under `id` changes. */
  function ChangePost(s: Store, id: Id, updated: Result<Post>): (r: Step<Post>)
    ensures updated.Err? ==> r == Step(s, Err(updated.error))
    ensures updated.Ok? ==>
              && r.answer == updated
              && WrittenAt(s.posts, r.store.posts, id, updated.value)
              && r.store == s.(posts := r.store.posts)
  {
    match updated
    case Err(e) => Step(s, Err(e))
    case Ok(row) => Step(s.(posts := s.posts[id := row]), Ok(row))
  }

  /** `deletePost`: null on success; a storage error propagates as a field
      error, with no conversion to a boolean. */
  function DeletePost(s: Store, id: Id, deleted: Result<()>): (r: Step<Option<bool>>)
    ensures deleted.Ok? ==> r.answer == Ok(None)
    ensures deleted.Ok? ==> RemovedAt(s.posts, r.store.posts, id) && r.store == s.(posts := r.store.posts)
    ensures deleted.Err? ==> r == Step(s, Err(deleted.error))
  {
    match deleted
    case Err(e) => Step(s, Err(e))
    case Ok(_) => Step(s.(posts := s.posts - {id}), Ok(None))
  }

  function CreateProfile(s: Store, dto: ProfileInput, created: Result<Id>): (r: Step<Profile>)
    ensures created.Err? ==> r == Step(s, Err(created.error))
    ensures created.Ok? ==>
              && r.answer == Ok(Profile(created.value, dto.isMale, dto.yearOfBirth, dto.memberTypeId, dto.userId))
              && WrittenAt(s.profiles, r.store.profiles, created.value, r.answer.value)
              && r.store == s.(profiles := r.store.profiles)
  {
    match created
    case Err(e) => Step(s, Err(e))
    case Ok(id) =>
      var row := Profile(id, dto.isMale, dto.yearOfBirth, dto.memberTypeId, dto.userId);
      Step(s.(profiles := s.profiles[id := row]), Ok(row))
  }

  /** `changeProfile`: only the record under `id` changes. */
  function ChangeProfile(s: Store, id: Id, updated: Result<Profile>): (r: Step<Profile>)
    ensures updated.Err? ==> r == Step(s, Err(updated.error))
    ensures updated.Ok? ==>
              && r.answer == updated
              && WrittenAt(s.profiles, r.store.profiles, id, updated.value)
              && r.store == s.(profiles := r.store.profiles)
  {
    match updated
    case Err(e) => Step(s, Err(e))
    case Ok(row) => Step(s.(profiles := s.profiles[id := row]), Ok(row))
  }

  /** `deleteProfile`: the same swallow-to-false policy as `deleteUser`. */
  function DeleteProfile(s: Store, id: Id, deleted: Result<()>): (r: Step<bool>)
    ensures r.answer.Ok?
    ensures r.answer.value <==> deleted.Ok?
    ensures deleted.Ok? ==> RemovedAt(s.profiles, r.store.profiles, id) && r.store == s.(profiles := r.store.profiles)
    ensures deleted.Err? ==> r.store == s
  {
    var after := if deleted.Ok? then s.(profiles := s.profiles - {id}) else s;
    Step(after, Swallowed(deleted))
  }

  const ConfirmPrefix: string := "User:"
  const ConfirmMiddle: string := " subscribed to author:"
  const ConfirmSuffix: string := "!"

  /** The confirmation `subscribeTo` answers. */
  function Confirmation(userId: Id, authorId: Id): string
  {
    ConfirmPrefix + userId + ConfirmMiddle + authorId + ConfirmSuffix
  }

  /** The first position of `c` in `s`, if any. */
  function IndexOf(s: string, c: char): (r: Option<nat>)
    ensures r.None? <==> c !in s
    ensures r.Some? ==> r.value < |s| && s[r.value] == c && forall j :: 0 <= j < r.value ==> s[j] != c
    decreases |s|
  {
    if |s| == 0 then None
    else if s[0] == c then Some(0)
    else
      match IndexOf(s[1..], c)
      case None => None
      case Some(k) =>
        assert forall j :: 1 <= j <= k ==> s[j] == s[1..][j - 1];
        Some(k + 1)
  }

  lemma Concat3<T>(s: seq<T>, i: nat, j: nat)
    requires i <= j <= |s|
    ensures s == s[..i] + s[i..j] + s[j..]
  {
  }

  lemma Regroup<T>(p: seq<T>, u: seq<T>, m: seq<T>, a: seq<T>, x: seq<T>)
    ensures p + (u + m + a) + x == p + u + m + a + x
  {
  }

  /** Reads a confirmation back into the (user, author) pair it names. The
      user id ends at the first space. */
  function ParseConfirmation(s: string): (r: Option<(Id, Id)>)
    ensures r.Some? ==> Confirmation(r.value.0, r.value.1) == s
    ensures r.Some? ==> ' ' !in r.value.0
  {
    var n := |ConfirmPrefix|;
    if |s| < n + |ConfirmSuffix| || s[..n] != ConfirmPrefix || s[|s| - 1..] != ConfirmSuffix then None
    else
      var body := s[n..|s| - 1];
      Concat3(s, n, |s| - 1);
      match IndexOf(body, ' ')
      case None => None
      case Some(k) =>
        var m := |ConfirmMiddle|;
        if |body| < k + m || body[k..k + m] != ConfirmMiddle then None
        else
          var u := body[..k];
          var a := body[k + m..];
          Concat3(body, k, k + m);
          Regroup(ConfirmPrefix, u, ConfirmMiddle, a, ConfirmSuffix);
          assert ' ' !in u by {
            forall j | 0 <= j < |u| ensures u[j] != ' ' { assert u[j] == body[j]; }
          }
          Some((u, a))
  }

  /** The confirmation names the pair it was made from, whenever the user id
      has no space (UUIDs never do). */
  lemma ConfirmationRoundTrip(userId: Id, authorId: Id)
    requires ' ' !in userId
    ensures ParseConfirmation(Confirmation(userId, authorId)) == Some((userId, authorId))
  {
    var s := Confirmation(userId, authorId);
    var n := |ConfirmPrefix|;
    var m := |ConfirmMiddle|;
    var body := userId + ConfirmMiddle + authorId;
    assert s == ConfirmPrefix + body + ConfirmSuffix;
    assert s[..n] == ConfirmPrefix;
    assert s[|s| - 1..] == ConfirmSuffix;
    assert s[n..|s| - 1] == body;
    assert body[|userId|] == ConfirmMiddle[0] == ' ';
    assert forall j :: 0 <= j < |userId| ==> body[j] == userId[j];
    var k := IndexOf(body, ' ');
    assert k.Some? && k.value == |userId|;
    assert body[|userId|..|userId| + m] == ConfirmMiddle;
    assert body[..|userId|] == userId;
    assert body[|userId| + m..] == authorId;
  }

  /** `subscribeTo`: adds one edge (userId follows authorId), keeps every
      other edge, and answers the confirmation; a storage error propagates. */
  function SubscribeTo(s: Store, userId: Id, authorId: Id, created: Result<()>): (r: Step<string>)
    ensures created.Err? ==> r == Step(s, Err(created.error))
    ensures created.Ok? ==>
              && multiset(r.store.edges) == multiset(s.edges) + multiset{Edge(userId, authorId)}
              && Subsequence(s.edges, r.store.edges)
              && r.store == s.(edges := r.store.edges)
              && r.answer == Ok(Confirmation(userId, authorId))
              && (' ' !in userId ==> ParseConfirmation(r.answer.value) == Some((userId, authorId)))
  {
    match created
    case Err(e) => Step(s, Err(e))
    case Ok(_) =>
      var edges := s.edges + [Edge(userId, authorId)];
      SubsequencePrefix(s.edges, [Edge(userId, authorId)]);
      assert ' ' !in userId ==> ParseConfirmation(Confirmation(userId, authorId)) == Some((userId, authorId)) by {
        if ' ' !in userId {
          ConfirmationRoundTrip(userId, authorId);
        }
      }
      Step(s.(edges := edges), Ok(Confirmation(userId, authorId)))
  }

  lemma {:induction false} SubsequencePrefix<T>(a: seq<T>, b: seq<T>)
    ensures Subsequence(a, a + b)
    decreases |a| + |b|
  {
    if |a| == 0 {
    } else {
      assert (a + b)[1..] == a[1..] + b;
      SubsequencePrefix(a[1..], b);
    }
  }

  /** The edges other than (userId, authorId), in order, each as often as
      before. */
  function RemovePair(edges: seq<Edge>, userId: Id, authorId: Id): (r: seq<Edge>)
    ensures Subsequence(r, edges)
    ensures Edge(userId, authorId) !in r
    ensures forall i :: 0 <= i < |edges| && edges[i] != Edge(userId, authorId) ==>
              multiset(r)[edges[i]] == multiset(edges)[edges[i]]
    decreases |edges|
  {
    if |edges| == 0 then []
    else
      var rest := RemovePair(edges[1..], userId, authorId);
      assert edges == [edges[0]] + edges[1..];
      assert multiset(edges) == multiset{edges[0]} + multiset(edges[1..]);
      if edges[0] == Edge(userId, authorId) then
        forall i | 0 <= i < |edges| && edges[i] != Edge(userId, authorId)
          ensures multiset(rest)[edges[i]] == multiset(edges)[edges[i]]
        {
          assert edges[i] == edges[1..][i - 1];
        }
        rest
      else
        var r := [edges[0]] + rest;
        assert r[1..] == rest;
        assert multiset(r) == multiset{edges[0]} + multiset(rest);
        assert multiset(rest)[edges[0]] == multiset(edges[1..])[edges[0]] by {
          if edges[0] in edges[1..] {
            var j :| 0 <= j < |edges[1..]| && edges[1..][j] == edges[0];
          } else if edges[0] in rest {
            SubsequenceMember(rest, edges[1..], edges[0]);
          }
        }
        forall i | 0 <= i < |edges| && edges[i] != Edge(userId, authorId)
          ensures multiset(r)[edges[i]] == multiset(edges)[edges[i]]
        {
          if i > 0 && edges[i] != edges[0] {
            assert edges[i] == edges[1..][i - 1];
          }
        }
        r
  }

  /** `unsubscribeFrom`: on success every (userId, authorId) edge is gone,
      every other edge stays, and the answer is true; on a storage error
      nothing changes and the answer is false. */
  function UnsubscribeFrom(s: Store, userId: Id, authorId: Id, deleted: Result<()>): (r: Step<bool>)
    ensures r.answer.Ok?
    ensures r.answer.value <==> deleted.Ok?
    ensures deleted.Ok? ==>
              && Edge(userId, authorId) !in r.store.edges
              && Subsequence(r.store.edges, s.edges)
              && (forall i :: 0 <= i < |s.edges| && s.edges[i] != Edge(userId, authorId) ==>
                    multiset(r.store.edges)[s.edges[i]] == multiset(s.edges)[s.edges[i]])
              && r.store == s.(edges := r.store.edges)
    ensures deleted.Err? ==> r.store == s
  {
    var after := if deleted.Ok? then s.(edges := RemovePair(s.edges, userId, authorId)) else s;
    Step(after, Swallowed(deleted))
  }

  lemma {:induction false} RemovePairAbsent(edges: seq<Edge>, userId: Id, authorId: Id)
    requires Edge(userId, authorId) !in edges
    ensures RemovePair(edges, userId, authorId) == edges
    decreases |edges|
  {
    if |edges| > 0 {
      assert Edge(userId, authorId) !in edges[1..];
      RemovePairAbsent(edges[1..], userId, authorId);
    }
  }

  lemma {:induction false} RemovePairAppended(edges: seq<Edge>, userId: Id, authorId: Id)
    ensures RemovePair(edges + [Edge(userId, authorId)], userId, authorId) == RemovePair(edges, userId, authorId)
    decreases |edges|
  {
    var e := Edge(userId, authorId);
    if |edges| == 0 {
      assert [e][1..] == [];
    } else {
      assert (edges + [e])[1..] == edges[1..] + [e];
      RemovePairAppended(edges[1..], userId, authorId);
    }
  }

  /** Subscribing to a new author and then unsubscribing restores the store
      exactly. */
  lemma SubscribeThenUnsubscribe(s: Store, userId: Id, authorId: Id)
    requires Edge(userId, authorId) !in s.edges
    ensures UnsubscribeFrom(SubscribeTo(s, userId, authorId, Ok(())).store, userId, authorId, Ok(())).store == s
  {
    RemovePairAppended(s.edges, userId, authorId);
    RemovePairAbsent(s.edges, userId, authorId);
  }
}
