/** The Query root's `users` and `user(id)` resolvers. */
module QueryRoot {
  import opened Wrappers
  import opened Entities
  import opened Alignment
  import opened Loaders
  import opened UserFields

  /** Which edge lists the storage is asked to include with each user. */
  datatype Include = Include(subscribedToUser: bool, userSubscribedTo: bool)

  /** The include flags for `users`, read off the set of field names the
      query selected under it. */
  function UsersInclude(fields: set<string>): (r: Include)
    ensures r.subscribedToUser <==> "subscribedToUser" in fields
    ensures r.userSubscribedTo <==> "userSubscribedTo" in fields
  {
    Include("subscribedToUser" in fields, "userSubscribedTo" in fields)
  }

  /** Each flag depends on its own field name only: selecting any other
      field changes neither. */
  lemma UsersIncludeIndependent(fields: set<string>, name: string)
    ensures name != "subscribedToUser" ==>
              UsersInclude(fields + {name}).subscribedToUser == UsersInclude(fields).subscribedToUser
    ensures name != "userSubscribedTo" ==>
              UsersInclude(fields + {name}).userSubscribedTo == UsersInclude(fields).userSubscribedTo
  {
  }

  /** A selection of plain fields only, such as `{ id name }`, includes no
      edge list. */
  lemma PlainSelectionIncludesNothing()
    ensures UsersInclude({"id", "name"}) == Include(false, false)
  {
  }

  /** One `prime(key, value)` call on the user loader. */
  datatype Prime = Prime(key: Id, value: User)

  /** What `users` answers, and the prime calls it issued on the way. */
  datatype UsersAnswer = UsersAnswer(result: Result<seq<User>>, primes: seq<Prime>)

  /** `users`: the fetched list is returned unchanged, and every returned
      user is primed under its own id, in list order. A failed fetch
      propagates before any prime. */
  function Users(fetched: Result<seq<User>>): (r: UsersAnswer)
    ensures r.result == fetched
    ensures fetched.Err? ==> r.primes == []
    ensures fetched.Ok? ==> |r.primes| == |fetched.value|
    ensures fetched.Ok? ==> forall i :: 0 <= i < |fetched.value| ==>
              r.primes[i].key == fetched.value[i].id && r.primes[i].value == fetched.value[i]
  {
    match fetched
    case Err(_) => UsersAnswer(fetched, [])
    case Ok(users) =>
      UsersAnswer(fetched, seq(|users|, i requires 0 <= i < |users| => Prime(users[i].id, users[i])))
  }

  /** Ids are unique among fetched rows. */
  ghost predicate DistinctIds(users: seq<User>)
  {
    forall i, j :: 0 <= i < |users| && 0 <= j < |users| && users[i].id == users[j].id ==> i == j
  }

  /** Priming agrees with loading: when the fetched ids are distinct, every
      primed value is exactly what the user batch function would answer for
      its key from the same rows. */
  lemma PrimesAgreeWithBatch(users: seq<User>, k: int)
    requires DistinctIds(users)
    requires 0 <= k < |users|
    ensures UserBatch([Users(Ok(users)).primes[k].key], Ok(users))
         == Ok([Some(Users(Ok(users)).primes[k].value)])
  {
    var p := Users(Ok(users)).primes[k];
    var found := FindFirst(users, UserKey, p.key);
    assert !NoMatch(users, UserKey, p.key) by {
      assert UserKey(users[k]) == p.key;
    }
    var j :| IsFirstMatch(users, UserKey, p.key, j) && users[j] == found.value;
    assert j == k;
    assert p.value == users[k];
    var answers := UserBatch([p.key], Ok(users)).value;
    assert |answers| == 1 && answers[0] == found;
    assert answers == [Some(p.value)];
  }

  /** `user(id)`: the user loader asked for `id`. */
  function UserById(id: Id, fetched: Result<seq<User>>): (r: Result<Option<User>>)
    ensures fetched.Err? ==> r == Err(fetched.error)
    ensures fetched.Ok? ==> r.Ok?
    ensures r.Ok? ==> (r.value.None? <==> NoMatch(fetched.value, UserKey, id))
    ensures r.Ok? && r.value.Some? ==>
              exists j :: IsFirstMatch(fetched.value, UserKey, id, j) && fetched.value[j] == r.value.value
  {
    match UserBatch([id], fetched)
    case Err(e) => Err(e)
    case Ok(answers) => Ok(answers[0])
  }

  /** How the storage shapes a user row for the requested include flags: an
      edge list is present exactly when its flag is set, and then holds the
      edges in which the user is the subscriber (`userSubscribedTo`) or the
      author (`subscribedToUser`). This is the storage's relation, assumed
      here so that mutations and field resolvers can be related. */
  function IncludedRow(row: UserRecord, inc: Include, edges: seq<Edge>): (r: User)
    ensures r.id == row.id && r.name == row.name && r.balance == row.balance
    ensures r.userSubscribedTo.Some? <==> inc.userSubscribedTo
    ensures r.subscribedToUser.Some? <==> inc.subscribedToUser
  {
    User(row.id, row.name, row.balance,
         if inc.userSubscribedTo then Some(FilterByKey(edges, EdgeSubscriber, row.id)) else None,
         if inc.subscribedToUser then Some(FilterByKey(edges, EdgeAuthor, row.id)) else None)
  }

  function EdgeSubscriber(e: Edge): Id { e.subscriberId }
  function EdgeAuthor(e: Edge): Id { e.authorId }

  /** Selecting neither relation field leaves every listed user without edge
      lists, so neither subscription field issues a load for any of them. */
  lemma NoRelationSelectedNoLoads(fields: set<string>, row: UserRecord, edges: seq<Edge>,
                                  fetched: Result<seq<User>>)
    requires "subscribedToUser" !in fields && "userSubscribedTo" !in fields
    ensures UserSubscribedTo(IncludedRow(row, UsersInclude(fields), edges), fetched).None?
    ensures SubscribedToUser(IncludedRow(row, UsersInclude(fields), edges), fetched).None?
  {
  }

  /** Every stored row shaped for the same include flags, in order: what the
      storage lists for `users`. */
  function IncludedRows(rows: seq<UserRecord>, inc: Include, edges: seq<Edge>): (r: seq<User>)
    ensures |r| == |rows|
    ensures forall i :: 0 <= i < |rows| ==> r[i] == IncludedRow(rows[i], inc, edges)
  {
    seq(|rows|, i requires 0 <= i < |rows| => IncludedRow(rows[i], inc, edges))
  }

  /** The rows the user loader fetches always carry both edge lists. */
  const LoaderInclude: Include := Include(true, true)

  /** As written, `users` primes rows shaped by the selection. With only
      `userSubscribedTo` selected, the primed row for a followed user lacks
      its follower list, which the user loader would have fetched; a
      `subscribedToUser` field resolved from that cached row issues no load. */
  lemma PrimedRowMissesFollowers(fetched: Result<seq<User>>)
    ensures var fields := {"id", "userSubscribedTo"};
            var row := UserRecord("a", "Ann", 0);
            var edges := [Edge("b", "a")];
            var primed := Users(Ok(IncludedRows([row], UsersInclude(fields), edges))).primes[0].value;
            var loaded := IncludedRow(row, LoaderInclude, edges);
            && primed != loaded
            && SubscribedToUser(primed, fetched).None?
            && SubscribedToUser(loaded, fetched).Some?
  {
    var edges := [Edge("b", "a")];
    var row := UserRecord("a", "Ann", 0);
    assert EdgeAuthor(edges[0]) == row.id;
    assert edges[0] in FilterByKey(edges, EdgeAuthor, row.id) by {
      GroupMembership(edges, EdgeAuthor, row.id, FilterByKey(edges, EdgeAuthor, row.id), edges[0]);
    }
  }

  /** `users` priming only rows that were fetched with both edge lists, so
      that a primed value is what the user loader would have answered. */
  function UsersPrimingFullRows(fields: set<string>, fetched: Result<seq<User>>): (r: UsersAnswer)
    ensures r.result == fetched
    ensures UsersInclude(fields) != LoaderInclude ==> r.primes == []
    ensures UsersInclude(fields) == LoaderInclude ==> r == Users(fetched)
  {
    var listed := Users(fetched);
    if UsersInclude(fields) == LoaderInclude then listed else UsersAnswer(fetched, [])
  }

  /** With the correction, every primed value equals the row the user loader
      fetches for its key. */
  lemma PrimesEqualLoaderRows(fields: set<string>, rows: seq<UserRecord>, edges: seq<Edge>, k: int)
    requires 0 <= k < |UsersPrimingFullRows(fields, Ok(IncludedRows(rows, UsersInclude(fields), edges))).primes|
    ensures var p := UsersPrimingFullRows(fields, Ok(IncludedRows(rows, UsersInclude(fields), edges))).primes[k];
            p.value == IncludedRow(rows[k], LoaderInclude, edges) && p.key == rows[k].id
  {
  }
}
