/** The record shapes the resolvers work on (User, Post, Profile, MemberType
    and the subscription edge between two users). */
module Entities {
  import opened Wrappers

  /** Entity identifiers are opaque strings (UUIDs, or a member-type name). */
  type Id = string

  /** The closed enumeration of member-type identifiers. */
  datatype MemberTypeId = BASIC | BUSINESS

  /** The string each enumeration value stands for. */
  function MemberTypeIdValue(m: MemberTypeId): string
  {
    match m
    case BASIC => "BASIC"
    case BUSINESS => "BUSINESS"
  }

  /** Reads a member-type identifier; every string that is not the value of
      some enumeration member is rejected. */
  function ParseMemberTypeId(s: string): (r: Option<MemberTypeId>)
    ensures r.Some? ==> MemberTypeIdValue(r.value) == s
    ensures r.None? ==> forall m: MemberTypeId :: MemberTypeIdValue(m) != s
  {
    if s == "BASIC" then Some(BASIC)
    else if s == "BUSINESS" then Some(BUSINESS)
    else None
  }

  lemma MemberTypeIdRoundTrip(m: MemberTypeId)
    ensures ParseMemberTypeId(MemberTypeIdValue(m)) == Some(m)
  {
  }

  /** Floating-point fields (discount, balance) are modelled as integers. */
  datatype MemberType = MemberType(id: MemberTypeId, discount: int, postsLimitPerMonth: int)

  /** A follow relation: `subscriberId` follows `authorId`. */
  datatype Edge = Edge(subscriberId: Id, authorId: Id)

  /** A stored user row. */
  datatype UserRecord = UserRecord(id: Id, name: string, balance: int)

  /** A user as a resolver sees it: the row plus the edge lists the storage
      included, each absent when it was not asked for. */
  datatype User = User(
    id: Id,
    name: string,
    balance: int,
    userSubscribedTo: Option<seq<Edge>>,
    subscribedToUser: Option<seq<Edge>>)

  datatype Post = Post(id: Id, title: string, content: string, authorId: Id)

  datatype Profile = Profile(
    id: Id,
    isMale: bool,
    yearOfBirth: int,
    memberTypeId: MemberTypeId,
    userId: Id)
}
