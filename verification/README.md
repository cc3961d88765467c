# GraphQL gateway over Users, Posts, Profiles and MemberTypes — Dafny model

This project models the logic the repository writes itself around two
libraries, the storage client and the per-request data loader:

- **Batch functions** of the four loaders (`memberTypeDL`, `userDL`, `postDL`,
  `profileDL`). Each receives the requested keys and the rows the storage
  fetched for "key in keys", and answers one entry per key, in key order:
  the first matching row or absent (find-first), or the list of matching
  posts (filter-group). Module `Alignment` holds the generic shapes and
  their specifications; module `Loaders` instantiates them per entity.
- **User field resolvers**: `profile` and `posts` load by the user's own id;
  `userSubscribedTo` and `subscribedToUser` turn the edge list already on
  the parent into an id list for one `loadMany`, and return nothing when
  that list is absent or empty (module `UserFields`).
- **Query root** `users` (include flags read off the selected field names,
  every listed user primed under its id, the list returned unchanged) and
  `user(id)` (module `QueryRoot`).
- **Mutation root** as transitions of an abstract store holding users,
  posts, profiles and a sequence of subscription edges (module
  `MutationRoot`), and cross-operation consequences (module `Scenarios`).

Every storage call is replaced by its outcome, passed in as a `Result`: a
failed call carries the error the storage threw; a successful create carries
the id the storage assigned; a successful update carries the row the storage
wrote. When the storage fails is never decided here.

A `load(k)` on a loader is modelled as the batch function's answer for `k`
over the fetched rows. Which keys share a batch is the loader library's
choice; the lemmas `UserFields.ProfileFieldInAnyBatch`,
`Loaders.UserBatchDuplicates` and `Alignment.UnrequestedRowsIrrelevant` show
the answer for `k` does not depend on it.

The model makes three assumptions about the storage beyond its outcomes:

- `Alignment.KeyIn`: a "key in ids" query returns the table rows whose key
  is requested, each as often as it is stored, in table order. Only the
  lemmas that compare pre-filtered rows with the whole table use it
  (`Alignment.FindFirstKeyIn`, `Alignment.FilterByKeyKeyIn`,
  `Alignment.AlignFirstKeyIn`, `Alignment.AlignGroupsKeyIn`,
  `Alignment.UnrequestedRowsIrrelevant`,
  `Loaders.BatchesIgnoreUnrequestedRows`); the batch functions themselves
  take the fetched rows in whatever order they come.
- `QueryRoot.IncludedRow`: a user row fetched with an include flag carries
  the edges in which the user is the subscriber (`userSubscribedTo`) or the
  author (`subscribedToUser`). `QueryRoot.NoRelationSelectedNoLoads`, the
  `Scenarios` lemmas and the finding below use it.
- `Entities.MemberType`: a stored member type's id, and a stored profile's
  member-type id, is one of the enumeration values `BASIC` and `BUSINESS`.
  The storage schema types both as plain strings; only the GraphQL types
  restrict them. `Loaders.MemberTypeBatch` relies on it for its clause that
  an answered key names an enumeration value; the batch function itself
  answers a row with any id string.

`subscribeTo` answers a confirmation string. There are four loaders (member
type, user, post, profile); the two subscription fields go through the user
loader. `deletePost` lets a storage error propagate, while `deleteUser`,
`deleteProfile` and `unsubscribeFrom` turn it into false.

## Model

| member | source | states |
|---|---|---|
| Entities.ParseMemberTypeId | src/routes/graphql/types/member.ts:12-18 | a parsed member-type id stands for exactly the string read; every string that is no enumeration value is rejected; it inverts `Entities.MemberTypeIdValue`, the string each value stands for |
| Entities.MemberTypeIdRoundTrip | src/routes/graphql/types/member.ts:12-18 | each enumeration value reads back as itself |
| Alignment.FindFirst | src/routes/graphql/dataLoader.ts:13-15 | absent exactly when no row has the key; otherwise the row at the first position whose key matches |
| Alignment.FirstMatchUnique | src/routes/graphql/dataLoader.ts:13-15 | the first matching position is unique, so find-first is determined by the rows |
| Alignment.FilterByKey | src/routes/graphql/dataLoader.ts:38 | the result is a subsequence of the rows (fetched order), holds only rows with the key, and holds every matching row as often as it was fetched |
| Alignment.GroupMembership | src/routes/graphql/dataLoader.ts:38 | a row is in the group for a key exactly when it was fetched and its key is that key |
| Alignment.AlignFirst | src/routes/graphql/dataLoader.ts:13-15 | one answer per requested key, in key order; each absent iff no row matches, else the first match for that key |
| Alignment.AlignGroups | src/routes/graphql/dataLoader.ts:38 | one group per requested key, in key order; each is the group of that key |
| Alignment.FirstAlignedDuplicates | src/routes/graphql/dataLoader.ts:27 | two positions requesting the same key get equal answers |
| Alignment.GroupAlignedMembership | src/routes/graphql/dataLoader.ts:35-38 | a fetched row is in the group at a position iff its key is the key requested there; so it is in every group of its key and in no other |
| Alignment.KeyIn | src/routes/graphql/dataLoader.ts:10-12 | the storage's "key in ids" result keeps exactly the table rows whose key is requested, each as often as it is stored, in table order |
| Alignment.FindFirstKeyIn | src/routes/graphql/dataLoader.ts:10-15 | find-first of a requested key over the pre-filtered rows equals find-first over the whole table |
| Alignment.FilterByKeyKeyIn | src/routes/graphql/dataLoader.ts:35-38 | the group of a requested key over the pre-filtered rows equals its group over the whole table |
| Alignment.AlignFirstKeyIn | src/routes/graphql/dataLoader.ts:23-27 | find-first alignment against pre-filtered rows equals alignment against the whole table |
| Alignment.AlignGroupsKeyIn | src/routes/graphql/dataLoader.ts:35-38 | filter-group alignment against pre-filtered rows equals alignment against the whole table |
| Alignment.UnrequestedRowsIrrelevant | src/routes/graphql/dataLoader.ts:46-51 | tables that agree on their requested rows give the same answers: unrequested rows never affect the output |
| Loaders.MemberTypeBatch | src/routes/graphql/dataLoader.ts:8-17 | a failed fetch fails the batch; otherwise one answer per id in order, each absent iff no fetched member type has that id, else the first that does; an answered id always names an enumeration value |
| Loaders.UserBatch | src/routes/graphql/dataLoader.ts:21-30 | a failed fetch fails the batch; otherwise one answer per id in order, each the first fetched user with that id, absent iff none |
| Loaders.PostBatch | src/routes/graphql/dataLoader.ts:33-41 | a failed fetch fails the batch; otherwise one list per id in order, exactly that author's fetched posts in fetched order, empty (never absent) when there are none |
| Loaders.ProfileBatch | src/routes/graphql/dataLoader.ts:44-54 | a failed fetch fails the batch; otherwise one answer per user id in order, each the first fetched profile of that user, absent iff none |
| Loaders.UserBatchDuplicates | src/routes/graphql/dataLoader.ts:27 | duplicate ids in one user batch get equal answers |
| Loaders.PostBatchMembership | src/routes/graphql/dataLoader.ts:35-38 | a post is in the list at a position iff it was fetched and its author is the id requested there |
| Loaders.BatchesIgnoreUnrequestedRows | src/routes/graphql/dataLoader.ts:8-55 | for every loader, answering from the storage's "key in ids" rows equals answering from the whole table |
| UserFields.SubscribedAuthorIds | src/routes/graphql/types/user.ts:55-57 | no load iff the edge list is absent or empty; otherwise the keys are the edges' author ids, in edge order, one per edge |
| UserFields.FollowerIds | src/routes/graphql/types/user.ts:66-68 | no load iff the edge list is absent or empty; otherwise the keys are the edges' subscriber ids, in edge order, one per edge |
| UserFields.LoadManyUsers | src/routes/graphql/types/user.ts:57 | a failed fetch fails the load; otherwise one answer per key, in key order, duplicates included, each the first fetched user with that key |
| UserFields.UserSubscribedTo | src/routes/graphql/types/user.ts:52-62 | nothing iff the parent has no edges; otherwise one answer per edge, in order, each the first fetched user whose id is that edge's author, absent iff none was fetched; a fetch error propagates |
| UserFields.SubscribedToUser | src/routes/graphql/types/user.ts:63-73 | nothing iff the parent has no edges; otherwise one answer per edge, in order, each the first fetched user whose id is that edge's subscriber, absent iff none was fetched; a fetch error propagates |
| UserFields.ProfileField | src/routes/graphql/types/user.ts:40-45 | the profile is looked up by the parent's own id: absent iff no fetched profile belongs to it, else the first that does |
| UserFields.PostsField | src/routes/graphql/types/user.ts:46-51 | the posts are looked up by the parent's own id: exactly its fetched posts, in fetched order |
| UserFields.ProfileFieldInAnyBatch | src/routes/graphql/types/user.ts:43 | in any batch holding the parent's id, that position gets the profile the field resolves to |
| UserFields.PostsFieldInAnyBatch | src/routes/graphql/types/user.ts:49 | in any batch holding the parent's id, that position gets the posts the field resolves to |
| QueryRoot.UsersInclude | src/routes/graphql/query.ts:49-54 | each include flag is set iff its own field name is among the selected names |
| QueryRoot.UsersIncludeIndependent | src/routes/graphql/query.ts:51-52 | selecting any other field name changes neither flag |
| QueryRoot.PlainSelectionIncludesNothing | src/routes/graphql/query.ts:49-54 | selecting only `id` and `name` sets both flags false |
| QueryRoot.NoRelationSelectedNoLoads | src/routes/graphql/query.ts:49-54 | with neither relation selected, no listed user's subscription field issues a load |
| QueryRoot.Users | src/routes/graphql/query.ts:56-60 | the fetched list is returned unchanged; on success every listed user is primed under its own id, in list order; a failed fetch primes nothing |
| QueryRoot.PrimesAgreeWithBatch | src/routes/graphql/query.ts:56-58 | with distinct ids, every primed value is exactly what the user batch answers for its key from the same rows |
| QueryRoot.UserById | src/routes/graphql/query.ts:77-83 | `user(id)` answers the first fetched user with that id, absent iff none; a fetch error propagates |
| QueryRoot.IncludedRow | src/routes/graphql/query.ts:49-54 | a listed row keeps the stored fields and carries each edge list exactly when its flag is set |
| QueryRoot.PrimedRowMissesFollowers | src/routes/graphql/query.ts:49-58 | concrete input on which the primed row differs from the row the user loader fetches and loses its followers |
| QueryRoot.UsersPrimingFullRows | src/routes/graphql/query.ts:56-58 | corrected `users`: primes only when both edge lists were fetched, otherwise none; the list is returned unchanged |
| QueryRoot.PrimesEqualLoaderRows | src/routes/graphql/query.ts:56-58 | with the correction, every primed value equals the row the user loader fetches for its key |
| MutationRoot.Swallowed | src/routes/graphql/mutation.ts:51-59 | the answer is always a value, never an error, and is true iff the storage call succeeded |
| MutationRoot.CreateUser | src/routes/graphql/mutation.ts:21-29 | on success the new user holds the input's fields under the assigned id and nothing else changes; an error propagates with the store unchanged |
| MutationRoot.ChangeUser | src/routes/graphql/mutation.ts:30-46 | on success only the user under `args.id` changes; an error propagates with the store unchanged |
| MutationRoot.DeleteUser | src/routes/graphql/mutation.ts:47-61 | answers true iff the delete succeeded and false otherwise, never an error; on success only that user is gone |
| MutationRoot.CreatePost | src/routes/graphql/mutation.ts:62-68 | on success the new post holds the input's fields under the assigned id and nothing else changes |
| MutationRoot.ChangePost | src/routes/graphql/mutation.ts:69-85 | on success only the post under `args.id` changes |
| MutationRoot.DeletePost | src/routes/graphql/mutation.ts:86-95 | answers null on success; a storage error propagates as the field's error, with no boolean conversion |
| MutationRoot.CreateProfile | src/routes/graphql/mutation.ts:96-104 | on success the new profile holds the input's fields under the assigned id and nothing else changes |
| MutationRoot.ChangeProfile | src/routes/graphql/mutation.ts:105-118 | on success only the profile under `args.id` changes |
| MutationRoot.DeleteProfile | src/routes/graphql/mutation.ts:119-133 | the same swallow-to-false policy as deleteUser; on success only that profile is gone |
| MutationRoot.ParseConfirmation | src/routes/graphql/mutation.ts:151 | whatever it reads is a pair whose confirmation is exactly the input string |
| MutationRoot.ConfirmationRoundTrip | src/routes/graphql/mutation.ts:151 | the confirmation `User:<userId> subscribed to author:<authorId>!` reads back as its pair whenever the user id has no space |
| MutationRoot.SubscribeTo | src/routes/graphql/mutation.ts:134-153 | on success adds exactly one edge (subscriber userId, author authorId), keeps every other edge in order, and always answers `MutationRoot.Confirmation`, the string `User:<userId> subscribed to author:<authorId>!`, which reads back as the pair when the user id has no space; an error propagates |
| MutationRoot.RemovePair | src/routes/graphql/mutation.ts:166-171 | removes every edge of the pair and keeps every other edge, in order, as often as before |
| MutationRoot.UnsubscribeFrom | src/routes/graphql/mutation.ts:154-177 | on success no edge of the pair remains, every other edge stays, and the answer is true; on failure nothing changes and the answer is false |
| MutationRoot.RemovePairAbsent | src/routes/graphql/mutation.ts:166-171 | removing a pair that has no edge leaves the edges as they were |
| MutationRoot.RemovePairAppended | src/routes/graphql/mutation.ts:145-171 | removing a pair after appending its edge equals removing it before |
| MutationRoot.SubscribeThenUnsubscribe | src/routes/graphql/mutation.ts:145-175 | subscribing to a new author then unsubscribing restores the store exactly |
| Scenarios.AuthorCount | src/routes/graphql/types/user.ts:56 | among one subscriber's edges, an author id is listed as often as the edge to that author occurs |
| Scenarios.ListedAuthorCount | src/routes/graphql/types/user.ts:55-57 | the author ids `userSubscribedTo` loads count each author as often as the stored edge to it occurs |
| Scenarios.SubscribeThenListedOnce | src/routes/graphql/mutation.ts:145-150 | after subscribing A to a new author B, A's `userSubscribedTo` loads B exactly once |
| Scenarios.UnsubscribeThenNotListed | src/routes/graphql/mutation.ts:165-171 | after unsubscribing A from B, A's `userSubscribedTo` does not load B |

## Left out

- The storage client calls (`findMany`, `findUnique`, `create`, `update`, `delete`, `deleteMany`): they are a foreign library. Their outcomes are inputs. When they fail and how `update` merges partial input are not modelled. The batch functions accept fetched rows in any order; only `Alignment.KeyIn` fixes an order, for the pre-filter lemmas.
- MutationRoot.ChangeUser, MutationRoot.ChangePost and MutationRoot.ChangeProfile: the partial input (`dto`) is forwarded to the storage and does not appear in the model. The updated row is part of the storage outcome, because the merge is the storage's.
- MutationRoot.ChangeUser, MutationRoot.ChangePost and MutationRoot.ChangeProfile: the updated row is taken from the storage outcome as given, so its own id is not tied to the key it is stored under. The storage's `update` by `where: {id}` returns the row with that id and no change input carries an id, so in the source the two always agree.
- MutationRoot.DeleteUser: a cascading delete of the user's posts, profile and edges is the storage's concern, so only the user row is removed.
- The loader library itself (batching window, cache, deduplication, `prime`): it is external and tied to the event loop. Priming is modelled as the list of `prime` calls issued.
- UserFields.LoadManyUsers: the library reports a batch failure per element of `loadMany`; the model reports it once for the whole list.
- UserFields.UserSubscribedTo: its list comes from `loadMany`, which reports a batch failure per list item; the model reports one error for the field.
- UserFields.SubscribedToUser: its list comes from `loadMany`, which reports a batch failure per list item; the model reports one error for the field.
- MutationRoot.CreateUser, MutationRoot.CreatePost and MutationRoot.CreateProfile: the `dto` argument is declared nullable; the model assumes it is present. What the storage does with a missing `data` is not modelled.
- MutationRoot.ChangeUser, MutationRoot.ChangePost and MutationRoot.ChangeProfile: the `id` and `dto` arguments are declared nullable; the model assumes both are present. The storage's handling of a missing `where` or `data` field is not modelled.
- MutationRoot.DeleteUser, MutationRoot.DeletePost and MutationRoot.DeleteProfile: the `id` argument is declared nullable; the model assumes it is present. The storage's handling of a missing `where` field is not modelled (for the two swallowing deletes any such storage error becomes false).
- MutationRoot.UnsubscribeFrom: `userId` and `authorId` are declared nullable; the model assumes both are present. A `deleteMany` whose filter field is missing is not modelled.
- QueryRoot.UserById: the `id` argument is declared nullable; the model assumes it is present. A loader `load` of a missing key fails inside the loader library, which is not modelled.
- The GraphQL parse, validate and execute pipeline and the HTTP route (`index.ts`): no logic of this repository runs there. The route builds its context under the key `dataloaders` while the resolvers read `dataLoaders`, and it serves `schema.ts` rather than `query.ts` and `mutation.ts`. So the pieces are verified in isolation, not end to end.
- `schema.ts` and the plain one-call resolvers (`memberTypes`, `posts`, `profiles`, `memberType`, `post`, `profile` on the Query root; `Post.author`, `Profile.user`, `MemberType.profiles`): they wrap one storage call each and have no logic of their own.
- `Profile.memberType`: it is no storage call but a `load(parent.memberTypeId)` on the member-type loader, its only caller; the loader's answer for that key is `Loaders.MemberTypeBatch` at that position, and the resolver adds no logic of its own.
- The selection-set introspection in `users`: the selected field names are an input.
- Floating-point fields (`balance`, `discount`) are modelled as integers.
- UUID scalar validation: `types/uuid.js` is not part of this model. MutationRoot.ConfirmationRoundTrip relies only on user ids having no space.
- The unused `profile` and `posts` members of the user shape are omitted, because no resolver populates or reads them.

## Findings

| source | as written | input that shows it | evidently intended | confidence | as-written member | corrected member |
|---|---|---|---|---|---|---|
| src/routes/graphql/query.ts:49-58 | `users` primes the user loader with rows fetched under the selection's include flags. The user loader's own rows always carry both edge lists. | Select `{ id userSubscribedTo { id subscribedToUser { id } } }` with user `a` followed by `b`. The row primed for `a` has no follower list, so a nested `subscribedToUser` on `a` served from the cache resolves to nothing instead of `[b]`. | Priming should seed only values the loader would itself answer, so that a cached value and a loaded value agree. | medium; not executed; depends on the loader answering a primed key from its cache | QueryRoot.PrimedRowMissesFollowers | QueryRoot.UsersPrimingFullRows |
