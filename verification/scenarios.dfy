/** Mutations followed by queries: a subscription made by `subscribeTo` shows
    up in the subscriber's `userSubscribedTo` keys exactly once, and is gone
    after `unsubscribeFrom`. The link between the edge store and a user's
    edge list is the storage relation `QueryRoot.IncludedRow` assumes. */
module Scenarios {
  import opened Wrappers
  import opened Entities
  import opened Alignment
  import opened UserFields
  import opened QueryRoot
  import opened MutationRoot

  lemma AuthorIdsCons(edges: seq<Edge>)
    requires |edges| > 0
    ensures AuthorIds(edges) == [edges[0].authorId] + AuthorIds(edges[1..])
  {
    var a := AuthorIds(edges);
    var b := [edges[0].authorId] + AuthorIds(edges[1..]);
    assert |a| == |b|;
    forall i | 0 <= i < |a| ensures a[i] == b[i] {
      if i > 0 {
        assert b[i] == AuthorIds(edges[1..])[i - 1] == edges[1..][i - 1].authorId;
      }
    }
  }

  /** Among edges of one subscriber, an author id occurs in the author list
      as often as the edge to that author occurs. */
  lemma {:induction false} AuthorCount(edges: seq<Edge>, userId: Id, authorId: Id)
    requires forall i :: 0 <= i < |edges| ==> edges[i].subscriberId == userId
    ensures multiset(AuthorIds(edges))[authorId] == multiset(edges)[Edge(userId, authorId)]
    decreases |edges|
  {
    if |edges| > 0 {
      var rest := edges[1..];
      assert forall i :: 0 <= i < |rest| ==> rest[i] == edges[i + 1];
      AuthorCount(rest, userId, authorId);
      assert edges == [edges[0]] + rest;
      AuthorIdsCons(edges);
      assert multiset(edges) == multiset{edges[0]} + multiset(rest);
      assert multiset(AuthorIds(edges)) == multiset{edges[0].authorId} + multiset(AuthorIds(rest));
      assert edges[0].authorId == authorId <==> edges[0] == Edge(userId, authorId);
    }
  }

  /** The author ids `userSubscribedTo` would load for `row` over `edges`,
      when that field was selected. */
  function ListedAuthors(row: UserRecord, fields: set<string>, edges: seq<Edge>): Option<seq<Id>>
  {
    SubscribedAuthorIds(IncludedRow(row, UsersInclude(fields), edges))
  }

  lemma ListedAuthorCount(row: UserRecord, fields: set<string>, edges: seq<Edge>, authorId: Id)
    requires "userSubscribedTo" in fields
    ensures var listed := ListedAuthors(row, fields, edges);
            listed.Some? ==> multiset(listed.value)[authorId] == multiset(edges)[Edge(row.id, authorId)]
    ensures ListedAuthors(row, fields, edges).None? ==> Edge(row.id, authorId) !in edges
  {
    var f := FilterByKey(edges, EdgeSubscriber, row.id);
    var e := Edge(row.id, authorId);
    AuthorCount(f, row.id, authorId);
    if e in edges {
      var i :| 0 <= i < |edges| && edges[i] == e;
      assert EdgeSubscriber(edges[i]) == row.id;
      assert multiset(f)[e] == multiset(edges)[e];
    } else {
      if e in f {
        SubsequenceMember(f, edges, e);
      }
    }
  }

  /** After subscribing A to a new author B, B is among A's listed authors
      exactly once. */
  lemma SubscribeThenListedOnce(s: Store, row: UserRecord, authorId: Id, fields: set<string>)
    requires "userSubscribedTo" in fields
    requires Edge(row.id, authorId) !in s.edges
    ensures var after := SubscribeTo(s, row.id, authorId, Ok(())).store;
            var listed := ListedAuthors(row, fields, after.edges);
            listed.Some? && multiset(listed.value)[authorId] == 1
  {
    var after := SubscribeTo(s, row.id, authorId, Ok(())).store;
    ListedAuthorCount(row, fields, after.edges, authorId);
    assert multiset(after.edges)[Edge(row.id, authorId)] == 1;
  }

  /** After a successful unsubscribe of A from B, B is not among A's listed
      authors. */
  lemma UnsubscribeThenNotListed(s: Store, row: UserRecord, authorId: Id, fields: set<string>)
    requires "userSubscribedTo" in fields
    ensures var after := UnsubscribeFrom(s, row.id, authorId, Ok(())).store;
            var listed := ListedAuthors(row, fields, after.edges);
            listed.None? || authorId !in listed.value
  {
    var after := UnsubscribeFrom(s, row.id, authorId, Ok(())).store;
    ListedAuthorCount(row, fields, after.edges, authorId);
  }
}
