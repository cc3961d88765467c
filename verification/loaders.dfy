/** The batch functions of the four per-request loaders. Each receives the
    requested keys and the rows the storage fetched for "key in keys" (or the
    error the fetch threw) and answers one entry per key, in key order. */
module Loaders {
  import opened Wrappers
  import opened Entities
  import opened Alignment

  /** Member types are looked up by the string their enumeration value
      stands for. */
  function MemberTypeKey(m: MemberType): Id { MemberTypeIdValue(m.id) }
  function UserKey(u: User): Id { u.id }
  function PostAuthorKey(p: Post): Id { p.authorId }
  function ProfileUserKey(p: Profile): Id { p.userId }

  /** Member types by id: the first fetched member type with that id, or
      absent; only a key naming an enumeration value can be answered. A
      failed fetch fails the whole batch. */
  function MemberTypeBatch(ids: seq<Id>, fetched: Result<seq<MemberType>>): (r: Result<seq<Option<MemberType>>>)
    ensures fetched.Err? ==> r == Err(fetched.error)
    ensures fetched.Ok? ==> r.Ok? && FirstAligned(ids, fetched.value, MemberTypeKey, r.value)
    ensures r.Ok? ==> forall i :: 0 <= i < |ids| && r.value[i].Some? ==>
              ParseMemberTypeId(ids[i]) == Some(r.value[i].value.id)
  {
    match fetched
    case Err(e) => Err(e)
    case Ok(rows) =>
      var r := AlignFirst(ids, rows, MemberTypeKey);
      assert forall i :: 0 <= i < |ids| && r[i].Some? ==> ParseMemberTypeId(ids[i]) == Some(r[i].value.id) by {
        forall i | 0 <= i < |ids| && r[i].Some? ensures ParseMemberTypeId(ids[i]) == Some(r[i].value.id) {
          var j :| IsFirstMatch(rows, MemberTypeKey, ids[i], j) && rows[j] == r[i].value;
          MemberTypeIdRoundTrip(r[i].value.id);
        }
      }
      Ok(r)
  }

  /** Users by id (with both edge lists included): the first fetched user with
      that id, or absent. */
  function UserBatch(ids: seq<Id>, fetched: Result<seq<User>>): (r: Result<seq<Option<User>>>)
    ensures fetched.Err? ==> r == Err(fetched.error)
    ensures fetched.Ok? ==> r.Ok? && FirstAligned(ids, fetched.value, UserKey, r.value)
    ensures r.Ok? ==> forall i :: 0 <= i < |ids| && r.value[i].Some? ==> r.value[i].value.id == ids[i]
  {
    match fetched
    case Err(e) => Err(e)
    case Ok(rows) =>
      var r := AlignFirst(ids, rows, UserKey);
      assert forall i :: 0 <= i < |ids| && r[i].Some? ==> r[i].value.id == ids[i] by {
        forall i | 0 <= i < |ids| && r[i].Some? ensures r[i].value.id == ids[i] {
          var j :| IsFirstMatch(rows, UserKey, ids[i], j) && rows[j] == r[i].value;
        }
      }
      Ok(r)
  }

  /** Posts by author id: the fetched posts whose author is that id, in fetched
      order; an author without posts gets the empty list, never absent. */
  function PostBatch(ids: seq<Id>, fetched: Result<seq<Post>>): (r: Result<seq<seq<Post>>>)
    ensures fetched.Err? ==> r == Err(fetched.error)
    ensures fetched.Ok? ==> r.Ok? && GroupAligned(ids, fetched.value, PostAuthorKey, r.value)
    ensures r.Ok? ==> forall i, p :: 0 <= i < |ids| && p in r.value[i] ==> p.authorId == ids[i]
  {
    match fetched
    case Err(e) => Err(e)
    case Ok(rows) =>
      var r := AlignGroups(ids, rows, PostAuthorKey);
      assert forall i, p :: 0 <= i < |ids| && p in r[i] ==> p.authorId == ids[i] by {
        forall i, p | 0 <= i < |ids| && p in r[i] ensures p.authorId == ids[i] {
          GroupAlignedMembership(ids, rows, PostAuthorKey, r, i, p);
        }
      }
      Ok(r)
  }

  /** Profiles by user id: the first fetched profile of that user, or absent. */
  function ProfileBatch(ids: seq<Id>, fetched: Result<seq<Profile>>): (r: Result<seq<Option<Profile>>>)
    ensures fetched.Err? ==> r == Err(fetched.error)
    ensures fetched.Ok? ==> r.Ok? && FirstAligned(ids, fetched.value, ProfileUserKey, r.value)
    ensures r.Ok? ==> forall i :: 0 <= i < |ids| && r.value[i].Some? ==> r.value[i].value.userId == ids[i]
  {
    match fetched
    case Err(e) => Err(e)
    case Ok(rows) =>
      var r := AlignFirst(ids, rows, ProfileUserKey);
      assert forall i :: 0 <= i < |ids| && r[i].Some? ==> r[i].value.userId == ids[i] by {
        forall i | 0 <= i < |ids| && r[i].Some? ensures r[i].value.userId == ids[i] {
          var j :| IsFirstMatch(rows, ProfileUserKey, ids[i], j) && rows[j] == r[i].value;
        }
      }
      Ok(r)
  }

  /** Duplicate keys in one batch receive equal answers. */
  lemma UserBatchDuplicates(ids: seq<Id>, fetched: Result<seq<User>>, i: int, j: int)
    requires fetched.Ok?
    requires 0 <= i < |ids| && 0 <= j < |ids| && ids[i] == ids[j]
    ensures UserBatch(ids, fetched).value[i] == UserBatch(ids, fetched).value[j]
  {
    FirstAlignedDuplicates(ids, fetched.value, UserKey, UserBatch(ids, fetched).value, i, j);
  }

  /** Every fetched post of a requested author is in the group at each
      position holding that author, and in no other group. */
  lemma PostBatchMembership(ids: seq<Id>, rows: seq<Post>, i: int, p: Post)
    requires 0 <= i < |ids|
    ensures p in PostBatch(ids, Ok(rows)).value[i] <==> p in rows && p.authorId == ids[i]
  {
    GroupAlignedMembership(ids, rows, PostAuthorKey, PostBatch(ids, Ok(rows)).value, i, p);
  }

  /** The storage fetches "key in ids"; answering from that pre-filtered list
      is the same as answering from the whole table, for every loader. */
  lemma BatchesIgnoreUnrequestedRows(ids: seq<Id>, memberTypes: seq<MemberType>, users: seq<User>,
                                     posts: seq<Post>, profiles: seq<Profile>)
    ensures MemberTypeBatch(ids, Ok(KeyIn(memberTypes, MemberTypeKey, ids)))
         == MemberTypeBatch(ids, Ok(memberTypes))
    ensures UserBatch(ids, Ok(KeyIn(users, UserKey, ids))) == UserBatch(ids, Ok(users))
    ensures PostBatch(ids, Ok(KeyIn(posts, PostAuthorKey, ids))) == PostBatch(ids, Ok(posts))
    ensures ProfileBatch(ids, Ok(KeyIn(profiles, ProfileUserKey, ids))) == ProfileBatch(ids, Ok(profiles))
  {
    AlignFirstKeyIn(ids, memberTypes, MemberTypeKey);
    AlignFirstKeyIn(ids, users, UserKey);
    AlignGroupsKeyIn(ids, posts, PostAuthorKey);
    AlignFirstKeyIn(ids, profiles, ProfileUserKey);
  }
}
