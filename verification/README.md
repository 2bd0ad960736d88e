# Client-side state of the issue tracker, modelled and proved

The web, desktop and mobile clients keep server state in a query cache and change it before the server has
answered: comments are resolved and deleted, issues are moved between status columns, labels are attached,
inbox items are archived. Server events arrive meanwhile over a WebSocket, late and more than once, and a
failed request rolls its change back. This project models that state and proves what keeps it consistent.

| files | subject |
|---|---|
| `Basics`, `Sorting`, `Forest` | filters and maps, the stable sort and lists that admit a key once, reachability over parent pointers (cycles allowed) |
| `Timeline`, `Threads`, `CommentMutations` | comments and their threads, the optimistic resolve, create and cascade delete |
| `TimelineRows`, `ThreadAgreement`, `TimelineSort`, `TimelineCoalesce` | rows per thread, agreement of the three walks over the comment forest, display order, merging of activities |
| `Issues`, `IssueTracking` | the list cache with one bucket per status, and the server it tracks |
| `QueryCache`, `IssueKeys`, `DeleteCache`, `IssueMutations`, `IssueUpdaters`, `Labels` | the query cache as a map from key sequences to data, and everything that writes issue data into it |
| `Mentions`, `ChipText`, `StripMarkdown`, `MentionLinks`, `Composer` | mention chips: scanning and serializing, stripping them again, the server's reading of the links, the composer that inserts them |
| `Realtime`, `Inbox`, `Workspace`, `Recency`, `RecentContexts`, `Pagers` | streamed task messages and pending tasks, the inbox list, the workspace switch with its microtasks and chat drafts, recency lists, fetching in pages and batches |

State that the program updates in place is a class here (`TimelineQuery`, `QueryClient`, `MentionInput`,
`Platform`, `InboxQuery`, `Sync`, `ViewedIssuesStore`, `RecentContextStore`). Each method is proved equal to a
function on values, and the lemmas speak about that function: about one call, and about every run of calls.

## What the proofs found

* A thread is a connected component of the reply relation, even when parent pointers form a cycle; the walk
  terminates on any input.
* With distinct ids the mobile rows are a permutation of the timeline if and only if the reply relation is
  acyclic. Entries above which there is only a cycle are shown nowhere.
* A bucketed list that follows the server loses an issue on exactly one kind of event: an update that brings it
  back from a status that lists do not hold (cancelled).
* A deletion, by the user or by a server event, goes through if and only if everything loaded under the list and
  my-list keys is bucketed. The assignee board of "my issues" and of a project loads grouped data under the
  my-list key, and from then on deletions throw before the caches are touched.
* An optimistic delete that fails restores everything loaded if and only if no loaded query extends the
  detail key of the issue. Nothing in the repository registers such a query.
* Removing an id from a bucketed list removes it from all paginated buckets if and only if at most one of them
  held it. Adding one keeps the buckets consistent if and only if no other bucket shows it.
* After a delete that went through, the issue survives in a children cache only under the empty parent id.
* Deleting a thread starter removes exactly what its row shows if and only if no activity hangs below it.
* Archiving an item drops its group if and only if the other active items of the group name its issue by a
  non-empty id.
* Picking a mention keeps the message linkable if and only if the name is a single word and every chip to the
  right of the cursor carries that same name; otherwise every mention of the message is lost when it is sent.
  When it stays linkable, every chip keeps its own link if and only if the later chips carry the same marker;
  with two people of one name the links can be swapped.
* The server hears exactly the chips of a serialized message, each by kind and id, whatever brackets stand around
  them; it hears nobody in a message that lost its links.
* Previews show a serialized message as the user saw it if and only if no text ends with an exclamation mark
  right before a chip; there they show an image.
* A lifecycle row and a streamed row commute unless both are new and claim one sequence number; then a
  lifecycle row that comes first hides the streamed one. The daemon numbers streamed rows from 1, so this is the
  usual case for rows 1 and 2. Streamed rows alone converge on top of any rows.
* A draft written between a workspace switch and the rehydration, for instance by a subscriber of the slug,
  replaces all drafts stored for the new workspace by those of the old one. A write or a clear is local if and
  only if memory and storage agree on the other sessions, which they do whenever no rehydration is pending.
* Two slugs share storage keys if and only if one ends with a colon and the other. Workspace slugs admit no
  colon, so real workspaces never do.
* Merging activities a second time changes nothing if and only if no run of merged entries ends within reach of
  the entry before it; on chronological input none does.

## Model

| member | source | states |
|---|---|---|
| Threads.ClimbGuarded | packages/core/issues/mutations.ts:756-764 | the guarded walk ends, on any parent pointers, at a loaded ancestor that is a root or lies on a cycle |
| Threads.GroupChildren | packages/core/issues/mutations.ts:765-773 | the children map lists exactly the comments that name each parent |
| Threads.ExpandDown | packages/core/issues/mutations.ts:774-785 | the stack walk collects exactly the reflexive-transitive descendants of the root, cycles included |
| Threads.CollectThreadCommentIds | packages/core/issues/mutations.ts:748-786 | for every input the result is the connected component of the comment (or what climbs to it, when it is not loaded) |
| Threads.BelowTopIsThread | packages/core/issues/mutations.ts:756-785 | below the node where the climb stops lies exactly the thread |
| Timeline.LastCommentIsIndexed | packages/core/issues/mutations.ts:752-755 | of several comments with one id, the last is the one that is looked up |
| Timeline.EmptyReadsAsNone | packages/core/issues/mutations.ts:760-760 | an empty parent id is no parent and an empty time no resolution, and nothing else reads as none |
| Forest.ConnectedIsEquivalence | packages/core/issues/mutations.ts:743-747 | being in one thread is an equivalence, so threads never overlap in part |
| Forest.ConnectedMeansSameRoot | packages/core/issues/mutations.ts:743-747 | on an acyclic forest, same thread means same root |
| CommentMutations.TimelineQuery.ResolveOnMutate | packages/core/issues/mutations.ts:793-820 | entry by entry: a resolve gives the comment the new time and empties the resolutions of the rest of its thread, an unresolve empties that comment's three resolution fields, and every other entry is as before; the previous timeline is returned |
| CommentMutations.TimelineQuery.DeleteOnMutate | packages/core/issues/mutations.ts:704-731 | the cached timeline loses exactly the comment and its descendants, in order |
| CommentMutations.TimelineQuery.CreateOnSuccess | packages/core/issues/mutations.ts:651-655 | a created comment enters once and the list is sorted; a missing list becomes that comment |
| CommentMutations.TimelineQuery.OnError | packages/core/issues/mutations.ts:821-825 | the previous timeline is put back when there was one |
| CommentMutations.CollectCascade | packages/core/issues/mutations.ts:708-725 | the fixpoint loop terminates on any parent pointers with exactly the reflexive-transitive descendants |
| CommentMutations.ResolveKeepsThreads | packages/core/issues/mutations.ts:796-817 | a resolve moves no comment to another thread |
| CommentMutations.ResolveIsSoleResolution | packages/core/issues/mutations.ts:798-817 | after a resolve exactly that comment is resolved in its thread, and every entry outside it is unchanged |
| CommentMutations.UnresolveClearsExactly | packages/core/issues/mutations.ts:804-817 | after an unresolve the comment is not resolved, and exactly the other entries that were resolved still are |
| CommentMutations.ResolveThenUnresolve | packages/core/issues/mutations.ts:796-817 | resolving a loaded comment and unresolving it again leaves nothing in its thread resolved |
| CommentMutations.CascadeKeepsThreads | packages/core/issues/mutations.ts:708-729 | survivors of a cascade delete never reply to what was removed and stay in the threads they were in |
| CommentMutations.ApplyKeepsOneResolution | packages/core/issues/mutations.ts:796-817 | one resolve, unresolve or cascade delete keeps at most one resolution per thread |
| CommentMutations.RunKeepsOneResolution | packages/core/issues/mutations.ts:743-747 | so does every run of them |
| TimelineRows.BuildTimelineRows | apps/mobile/lib/timeline-thread.ts:37-87 | with distinct ids it terminates with one row per activity, thread starter and orphan reply, in order, each with its descendants |
| TimelineRows.Partition | apps/mobile/lib/timeline-thread.ts:45-61 | top-level entries and direct replies per parent, both in timeline order |
| TimelineRows.CollectDescendants | apps/mobile/lib/timeline-thread.ts:63-80 | the queue walk terminates and lists every proper descendant once, in breadth-first order |
| ThreadAgreement.RowsShowRooted | apps/mobile/lib/timeline-thread.ts:82-86 | the rows show exactly the entries that have a root above them |
| ThreadAgreement.RowsArePermutationIffAcyclic | apps/mobile/lib/timeline-thread.ts:24-26 | the counts agree, as a permutation of the input, if and only if the reply relation is acyclic |
| ThreadAgreement.RowIsThread | apps/mobile/lib/timeline-thread.ts:63-86 | a row holds exactly what the thread walk collects from any of its members |
| ThreadAgreement.CascadeOfTopIsRowIff | packages/core/issues/mutations.ts:708-729 | deleting a thread starter removes exactly what its row shows, if and only if no activity climbs to it by parent pointers |
| TimelineSort.SortTimelineEntriesAsc | packages/core/issues/timeline-sort.ts:14-22 | the array holds the same entries as before, in order of created_at and id, and is the stable sort of its old contents |
| TimelineSort.BeforeOrders | packages/core/issues/timeline-sort.ts:15-20 | the comparison is a strict order that tells different ids apart |
| TimelineSort.StrLessIsAlphabetical | packages/core/issues/timeline-sort.ts:16-19 | strings compare alphabetically: a proper prefix, or the smaller character at the first difference |
| TimelineSort.SortedIsOldestFirst | packages/core/issues/timeline-sort.ts:15-20 | in a sorted list every entry is older than a later one, or of the same time and not behind it by id |
| TimelineSort.CreatesConverge | packages/core/issues/mutations.ts:651-655 | created comments in any order and number give one sorted list with distinct ids holding exactly them |
| TimelineCoalesce.CoalesceTimeline | apps/mobile/lib/timeline-coalesce.ts:29-58 | the loop cuts its input into maximal mergeable runs and emits one row per run |
| TimelineCoalesce.PushEntry | apps/mobile/lib/timeline-coalesce.ts:33-56 | one turn of the loop merges into the last row or starts a new one |
| TimelineCoalesce.CountsAreConserved | apps/mobile/lib/timeline-coalesce.ts:48-51 | on raw input the counts of the rows add up to the number of entries |
| TimelineCoalesce.AlikeMergeWithinTwoMinutes | apps/mobile/lib/timeline-coalesce.ts:33-56 | two entries become one row, the later one counting both, if and only if both are activities of one actor and action, the action is not squad_leader_evaluated, and they are at most two minutes apart or a task was completed or failed |
| TimelineCoalesce.NeverMerged | apps/mobile/lib/timeline-coalesce.ts:16-19 | comments and squad_leader_evaluated entries come out untouched, all of them and in order |
| TimelineCoalesce.RowsAreSettled | apps/mobile/lib/timeline-coalesce.ts:33-56 | on chronological input no two neighbouring rows are mergeable |
| TimelineCoalesce.SettledIffNoRunReopens | apps/mobile/lib/timeline-coalesce.ts:33-56 | on any input, two neighbouring rows are mergeable if and only if the last entry of some maximal run is within reach of the entry before the run |
| TimelineCoalesce.SecondPassIsIdentityIff | apps/mobile/lib/timeline-coalesce.ts:29-58 | on any input, a second pass is the identity if and only if no maximal run ends within reach of the entry before it |
| TimelineCoalesce.SecondPassIsIdentity | apps/mobile/lib/timeline-coalesce.ts:29-58 | on chronological input a second pass is the identity |
| TimelineCoalesce.BackwardsTimeLeavesMergeableRows | apps/mobile/lib/timeline-coalesce.ts:42-46 | three activities out of order for which the second pass is not the identity |
| Issues.FirstWithId | packages/core/issues/cache-helpers.ts:33-33 | an issue with the id, from the list, or none when the list has none |
| Issues.FirstWithIdIsFirst | packages/core/issues/cache-helpers.ts:33-33 | of several issues with the id, the first |
| Issues.LocateIn | packages/core/issues/cache-helpers.ts:27-37 | a location names a scanned bucket and an issue in it with that id; none means no scanned bucket holds the id |
| Issues.LocatedInFirstHolder | packages/core/issues/cache-helpers.ts:31-35 | of several buckets that hold the id, the first scanned, and in it the first issue |
| Issues.MergeTakesPatch | packages/core/issues/cache-helpers.ts:78-78 | the merged issue is the only one that has the patch's value in every field it carries and the old value in every other |
| IssueTracking.LookupIsShown | packages/core/issues/cache-helpers.ts:27-37 | in a valid cache the search finds exactly the shown issue with the id, in the bucket of its status |
| IssueTracking.AddKeepsValidIff | packages/core/issues/cache-helpers.ts:40-50 | adding keeps ids unique across buckets, statuses matching and totals large enough if and only if no other paginated bucket shows the id, or the issue is not paginated |
| IssueTracking.AddKeepsValid | packages/core/issues/cache-helpers.ts:40-50 | in that case it disturbs no other issue, and shows a new issue of a paginated status |
| IssueTracking.RemoveKeepsValid | packages/core/issues/cache-helpers.ts:53-64 | removing keeps validity and takes away exactly that id |
| IssueTracking.PatchKeepsValid | packages/core/issues/cache-helpers.ts:71-100 | patching keeps validity, replaces exactly that issue, and hides it when its new status is not paginated |
| IssueTracking.PatchedListTakesPatch | packages/core/issues/cache-helpers.ts:71-100 | field by field: the issue shown under the id takes the patch, or is no longer shown when its new status is not paginated; every other id shows what it did |
| IssueTracking.PatchedIssuePlace | packages/core/issues/cache-helpers.ts:81-98 | a patched issue stays at its place, or goes to the end of the bucket of its new status |
| IssueTracking.NewcomerIsLast | packages/core/issues/cache-helpers.ts:46-49 | an added issue goes to the end of its bucket |
| IssueTracking.StepKeepsOthersInOrder | packages/core/issues/cache-helpers.ts:40-100 | in any cache, no event disturbs the other issues of any bucket or their order |
| IssueTracking.StepKeepsUnloaded | packages/core/issues/cache-helpers.ts:46-98 | every event moves the total of every bucket with its issues: what is left to load stays the same |
| IssueTracking.PatchConservesTotals | packages/core/issues/cache-helpers.ts:89-99 | a patch between paginated statuses keeps the sum of the totals |
| IssueTracking.StepTracks | packages/core/issues/ws-updaters.ts:14-61 | one created, updated or deleted event keeps the cache equal to the server's paginated issues, but for issues that returned |
| IssueTracking.RunTracks | packages/core/issues/ws-updaters.ts:14-61 | over every run of events the cache shows nothing stale or foreign and misses only issues that returned |
| IssueTracking.FullyLoadedStaysEqual | packages/core/issues/ws-updaters.ts:14-61 | from a full snapshot, every run without returns keeps cache and server equal |
| IssueTracking.TrackingBreaksExactlyOnReturn | packages/core/issues/cache-helpers.ts:31-36 | the equality survives an event if and only if the event does not bring an issue back from an unpaginated status |
| IssueTracking.FlattenedListEqualsServer | packages/core/issues/queries.ts:127-134 | what a view flattens out of a tracking cache is every paginated server issue exactly once, and nothing else |
| IssueTracking.FlattenedInOrder | packages/core/issues/queries.ts:127-134 | the flattened list is the six buckets in board order |
| IssueTracking.PaginatedAre | packages/core/issues/config/status.ts:23-31 | the paginated statuses are all but cancelled |
| QueryCache.QueryClient.SetQueryData | packages/core/issues/mutations.ts:252-259 | one key is written; an absent value writes nothing |
| QueryCache.QueryClient.GetQueryData | packages/core/issues/mutations.ts:224-224 | the data of one key, none when nothing is loaded |
| QueryCache.QueryClient.GetQueriesData | packages/core/issues/mutations.ts:222-222 | all registered queries under a prefix, once each, in registration order |
| QueryCache.QueryClient.UpdateQueries | packages/core/issues/mutations.ts:252-254 | every loaded query under the prefix is rewritten and no other |
| QueryCache.QueryClient.RestoreQueries | packages/core/issues/mutations.ts:268-272 | snapshots are written back one by one; those without data write nothing |
| QueryCache.QueryClient.RemoveQueries | packages/core/issues/mutations.ts:360-360 | exactly the queries under the prefix disappear |
| QueryCache.QueryClient.InvalidateQueries | packages/core/issues/ws-updaters.ts:22-22 | every query under the prefix is marked stale and no data changes |
| QueryCache.RestoreUndoes | packages/core/issues/mutations.ts:267-281 | snapshots covering everything a change touched give the cache back |
| IssueKeys.FamiliesApart | packages/core/issues/queries.ts:18-66 | no query key lies under two of: lists, my-lists, Gantt lists, children, the detail of an issue, the labels of that issue |
| IssueKeys.KeysTellApart | packages/core/issues/queries.ts:18-66 | keys of different workspaces or issues are different, and a children key gives back its parent |
| IssueKeys.WorkspacesApart | packages/core/issues/queries.ts:18-66 | no key lies under the same prefix of two workspaces |
| IssueKeys.PatchAllPatchesEach | packages/core/issues/mutations.ts:442-443 | in a valid list a batch patches each of its issues as if alone, however often it names it, and no other |
| IssueKeys.BatchPatchedListTakesPatch | packages/core/issues/mutations.ts:442-443 | field by field: the list shows every issue of the batch with the patch, and the others as before |
| IssueKeys.SnapshotsUndo | packages/core/issues/mutations.ts:267-281 | rewrites confined to snapshotted keys are undone by restoring |
| DeleteCache.CollectParentId | packages/core/issues/delete-cache.ts:18-23 | a non-empty parent id is added once, an empty or missing one not at all |
| DeleteCache.ParentNames | packages/core/issues/delete-cache.ts:25-34 | a detail entry names the parent of its issue, a valid list that of the issue it shows, a children cache the parent it is keyed by |
| DeleteCache.RowNamesParents | packages/core/issues/delete-cache.ts:66-69 | a children cache names the parent of the first row of the issue, and the parent it is keyed by |
| DeleteCache.CollectFromLists | packages/core/issues/delete-cache.ts:51-61 | it throws if and only if some data loaded under the prefix is not bucketed; else exactly the non-empty parents that some list names for the issue are added |
| DeleteCache.CollectFromChildren | packages/core/issues/delete-cache.ts:63-70 | exactly the non-empty parents named by a children cache that holds the issue, by its row or by the key, are added |
| DeleteCache.CollectDeletedIssueCacheMetadata | packages/core/issues/delete-cache.ts:41-73 | it throws if and only if some loaded list or my-list is not bucketed; else the parents are exactly those named by the detail, a list, a my-list or a children cache, each once |
| DeleteCache.AssigneeGroupsBlockDeletion | packages/core/issues/queries.ts:37-43 | assignee groups of my-issues, once loaded, are such data |
| DeleteCache.PruneLists | packages/core/issues/delete-cache.ts:80-94 | lists lose the issue one after another, up to the first that is not bucketed |
| DeleteCache.PruneDeletedIssueFromListCaches | packages/core/issues/delete-cache.ts:75-95 | it goes through if and only if all loaded lists and my-lists are bucketed, and then every one loses the issue and nothing else changes; else only some of them lost it |
| DeleteCache.PruneDeletedIssueFromParentChildrenCaches | packages/core/issues/delete-cache.ts:97-108 | the row is dropped from the children caches of the given parents only |
| DeleteCache.ChildrenLoseExactlyTheIssue | packages/core/issues/delete-cache.ts:63-108 | every children cache of a non-empty parent loses exactly the issue and keeps its order, and loses nothing when collecting throws |
| DeleteCache.NoChildrenCacheHoldsTheIssue | packages/core/issues/delete-cache.ts:97-108 | afterwards a children cache holds the id if and only if it did before and is keyed by the empty id, or collecting threw |
| DeleteCache.ListsLoseTheIssue | packages/core/issues/delete-cache.ts:75-95 | every list and my-list cache becomes itself without the issue if collecting went through and stays as it was if not; every query outside lists and children is untouched |
| DeleteCache.RemovedEverywhereIffHeldOnce | packages/core/issues/cache-helpers.ts:53-64 | no paginated bucket holds the id afterwards if and only if at most one did before |
| DeleteCache.RemovalKeepsOthersInOrder | packages/core/issues/cache-helpers.ts:59-63 | every paginated bucket keeps all other issues in order |
| IssueMutations.PrepareUpdate | packages/core/issues/mutations.ts:222-250 | the snapshots hold the old data of every list, of the detail and of the concerned parent; the parent is the named one, else the first children cache that holds the issue |
| IssueMutations.FindHolder | packages/core/issues/mutations.ts:232-243 | the scan stops at the first children cache that holds the issue under a key ending in a string |
| IssueMutations.NamedParentIs | packages/core/issues/mutations.ts:231-234 | the detail names the parent when it has one; otherwise the first list does, if it holds the issue |
| IssueMutations.ConcernedParentIs | packages/core/issues/mutations.ts:235-247 | a non-empty named parent decides; otherwise the first children cache that holds the issue under a string key, if any |
| IssueMutations.ApplyUpdate | packages/core/issues/mutations.ts:252-264 | lists, detail and the children cache of a non-empty parent are patched in place, in that order |
| IssueMutations.UpdateOnMutate | packages/core/issues/mutations.ts:216-266 | field by field: every valid list, the detail and the row in the concerned children cache show the patch; every other query keeps its data |
| IssueMutations.UpdateShowsPatch | packages/core/issues/mutations.ts:252-264 | so it is for every cache content and every parent |
| IssueMutations.UpdateOnError | packages/core/issues/mutations.ts:267-281 | the snapshots of an update are restored in order |
| IssueMutations.UpdateRollsBack | packages/core/issues/mutations.ts:216-281 | for every cache content, restoring after an update gives the cache back exactly |
| IssueMutations.DeleteOnMutate | packages/core/issues/mutations.ts:334-362 | it throws, changing nothing, if and only if some loaded list or my-list is not bucketed; else caches are pruned, the detail removed, and the snapshots cover all pruned queries |
| IssueMutations.DeleteOnError | packages/core/issues/mutations.ts:363-382 | the snapshots of a delete are restored in order; without a context nothing is |
| IssueMutations.DeleteRollsBackIff | packages/core/issues/mutations.ts:334-382 | restoring gives back everything loaded if and only if no loaded query extends the detail key |
| IssueMutations.BatchUpdateOnMutate | packages/core/issues/mutations.ts:437-467 | field by field: every valid list and, under per-parent keys, every children cache shows all issues of the batch with the patch and the others as before; every other query keeps its data |
| IssueMutations.BatchShowsPatch | packages/core/issues/mutations.ts:440-464 | so it is for every cache content and any order of the children caches |
| IssueMutations.PatchChildrenCaches | packages/core/issues/mutations.ts:453-464 | affected children caches are patched and remembered one by one; keys without a parent id are skipped |
| IssueMutations.BatchUpdateOnError | packages/core/issues/mutations.ts:468-479 | list snapshots, then children snapshots are restored |
| IssueMutations.ChildrenPatchedAre | packages/core/issues/mutations.ts:453-464 | under per-parent keys the loop patches exactly the children caches that hold an issue of the batch, and remembers exactly those |
| IssueMutations.BatchUpdateRollsBack | packages/core/issues/mutations.ts:437-479 | for batches of any length, restoring gives the cache back exactly |
| IssueMutations.CollectAll | packages/core/issues/mutations.ts:513-524 | the parents of every issue of the batch, by issue and together; it throws if and only if there is an issue and some loaded list or my-list is not bucketed |
| IssueMutations.BatchDeleteOnMutate | packages/core/issues/mutations.ts:508-550 | it throws, changing nothing, if and only if there is an issue to delete and some loaded list or my-list is not bucketed; else every list and children cache has lost exactly the issues of the batch, all else is as before, and the snapshots cover all pruned queries |
| IssueMutations.BatchPruneRemovesEach | packages/core/issues/mutations.ts:542-548 | afterwards no valid list or my-list shows an issue of the batch and all show the others as before; every children cache of a non-empty parent has lost exactly those rows |
| IssueMutations.BatchDeleteOnError | packages/core/issues/mutations.ts:551-567 | list, my-list and children snapshots are restored in that order; without a context nothing is |
| IssueMutations.BatchDeleteRollsBack | packages/core/issues/mutations.ts:508-567 | for batches of any length, restoring gives the cache back exactly |
| IssueMutations.FailedUpdate | packages/core/issues/mutations.ts:212-281 | an update whose request fails leaves the cached data as it was |
| IssueMutations.FailedDelete | packages/core/issues/mutations.ts:332-382 | a delete whose onMutate throws or whose request fails leaves the loaded data as it was, if and only if it threw or nothing loaded extends the detail key |
| IssueMutations.FailedBatchUpdate | packages/core/issues/mutations.ts:427-479 | a batch update whose request fails leaves the cached data as it was |
| IssueMutations.FailedBatchDelete | packages/core/issues/mutations.ts:506-567 | a batch delete whose onMutate throws or whose request fails leaves the cached data as it was |
| IssueUpdaters.OnIssueCreated | packages/core/issues/ws-updaters.ts:14-37 | every cached list takes the created step; my-lists, Gantt lists and the parent's children will be fetched again |
| IssueUpdaters.OnIssueUpdated | packages/core/issues/ws-updaters.ts:39-101 | every cached list takes the updated step, and lists, detail and the row under a parent that stays show the patch field by field; when the parent changes, old and new children will be fetched again |
| IssueUpdaters.UpdateCopies | packages/core/issues/ws-updaters.ts:77-90 | the detail and the row under a parent that stays show the patch field by field, and no list is unmarked |
| IssueUpdaters.MarkLists | packages/core/issues/ws-updaters.ts:62-76 | my-lists and Gantt lists will be fetched again, lists too when a position changed |
| IssueUpdaters.MarkParents | packages/core/issues/ws-updaters.ts:82-94 | the children of a non-empty old and new parent will be fetched again |
| IssueUpdaters.CleanupDeletedIssueCaches | packages/core/issues/delete-cache.ts:148-182 | it goes through if and only if all loaded lists and my-lists are bucketed: then lists and children are pruned, the issue's own queries removed, lists and the parents' children will be fetched again; else some lists lost the issue and nothing else changed |
| IssueUpdaters.CleanupRemovesOwnQueries | packages/core/issues/delete-cache.ts:158-166 | exactly the nine families of queries about the issue itself are removed, the others keep what pruning left |
| IssueUpdaters.InvalidateDeletedIssueParentCaches | packages/core/issues/delete-cache.ts:110-121 | the children of every collected parent will be fetched again |
| IssueUpdaters.OnIssueDeleted | packages/core/issues/ws-updaters.ts:172-181 | it throws, changing nothing, if and only if some loaded list or my-list is not bucketed; else every cached list takes the deleted step, unless the workspace id is the name of a per-issue key family |
| IssueUpdaters.ListFollowsRun | packages/core/issues/ws-updaters.ts:14-61 | a cached list that follows each event of a run holds what the run computes |
| IssueUpdaters.CachedListsEqualServer | packages/core/issues/ws-updaters.ts:14-61 | after any run without returns whose events all went through, every list cached in full shows exactly the server's paginated issues |
| Labels.OnIssueLabelsChanged | packages/core/issues/ws-updaters.ts:114-146 | every copy in a valid list, the detail, the label entry and the Gantt rows takes the labels and keeps its other fields; no other data changes; my-lists will be fetched again |
| Labels.RelabelledShows | packages/core/issues/ws-updaters.ts:120-142 | so it is for every cache content |
| Labels.LabelPatchSetsLabels | packages/core/issues/ws-updaters.ts:120-131 | a label patch sets the labels of an issue and nothing else |
| Labels.AttachOnMutate | packages/core/labels/mutations.ts:104-121 | an unknown list, a present label or an unlisted label changes nothing; otherwise the longer list is spread to all copies |
| Labels.DetachOnMutate | packages/core/labels/mutations.ts:149-160 | the shorter list is spread to all copies; an unknown list changes nothing |
| Labels.AttachAddsTheLabel | packages/core/labels/mutations.ts:112-117 | the list grows by the first listed label of the id, at its end, if and only if both lists are loaded, the label is listed and the issue does not have it |
| Labels.DetachTakesOutTheLabel | packages/core/labels/mutations.ts:149-160 | the list loses the label wherever it stands and keeps the others in order; without a loaded list nothing happens |
| Labels.OnSettledWith | packages/core/labels/mutations.ts:122-137 | rollback and server answer spread their list, when there is one |
| Labels.RelabelledAgree | packages/core/issues/ws-updaters.ts:114-142 | in particular when no list holds the issue in two buckets, whether or not the copies agreed before |
| Labels.RelabelledAgreeIff | packages/core/issues/ws-updaters.ts:114-142 | for any cache, all copies agree afterwards if and only if in every list further buckets that hold the issue show these labels already |
| Labels.StepKeepsCoherence | packages/core/labels/mutations.ts:103-137 | every optimistic patch, rollback, answer and event leaves all copies with one label list |
| Labels.RunKeepsCoherence | packages/core/labels/mutations.ts:103-166 | so does every run of them, for any number of cached lists and projects |
| Labels.RollbackShowsPrevious | packages/core/labels/mutations.ts:161-166 | rolling back with what onMutate returned shows in every copy the labels that all copies showed before; with nothing returned nothing had changed |
| Mentions.TokenAtCursor | apps/mobile/lib/mention-serialize.ts:47-78 | it returns the one `@` token that ends at the cursor, and none exactly when there is none |
| Mentions.SpacesAre | apps/mobile/lib/mention-serialize.ts:151-151 | white space is the 25 characters that `\s` matches |
| Mentions.TokensLossless | apps/mobile/lib/mention-serialize.ts:134-168 | reading text as plain characters, stray marks and marked words loses nothing |
| Mentions.SerializeMentions | apps/mobile/lib/mention-serialize.ts:122-175 | for every text and marker list: all links in order when the marked words are the marker names, else the text without marks |
| Mentions.StripTakesOutMarks | apps/mobile/lib/mention-serialize.ts:170-173 | without links, the marks go wherever they stand and all other characters stay in order |
| Mentions.ScanStep | apps/mobile/lib/mention-serialize.ts:134-168 | one turn of the scanner keeps the linked prefix right, and aborts only when words and markers disagree |
| ChipText.SerializeLinksEveryChip | apps/mobile/lib/mention-serialize.ts:108-121 | delimited chips in marker order all become links and the text between them is unchanged |
| ChipText.SerializedIsClean | apps/mobile/lib/mention-serialize.ts:170-174 | the output holds no mark when names and ids hold none |
| MentionLinks.ParseMentions | server/internal/util/mention.go:24-37 | the loop keeps every mention of the text once, in order of first occurrence |
| MentionLinks.FirstsGrow | server/internal/util/mention.go:26-35 | they come in the order in which they first occur |
| MentionLinks.SeenKeysDiffer | server/internal/util/mention.go:28-31 | two mentions share a key if and only if kind and id are the same |
| MentionLinks.IdCharsAre | server/internal/util/mention.go:16-16 | ids are made of hexadecimal digits and hyphens |
| MentionLinks.LinkIsHeard | server/internal/util/mention.go:11-16 | a link is the next mention whatever stands before it, brackets included, as long as no target starts in between |
| MentionLinks.ChipsAreHeard | server/internal/util/mention.go:11-16 | the server hears exactly the chips of a serialized message, in order: members, agents, squads, issues and all, each by kind and id |
| MentionLinks.OutOfStepIsNotHeard | server/internal/util/mention.go:16-16 | of a message sent without links it hears nobody |
| StripMarkdown.LinkedReadsAsSeen | apps/mobile/lib/strip-markdown.ts:25-27 | mention links read back as their labels |
| StripMarkdown.SeenIsTyped | apps/mobile/lib/mention-serialize.ts:161-165 | what the user sees of the chips is the typed text without marks, but for the `@` of issues |
| StripMarkdown.MatchesLink | apps/mobile/lib/strip-markdown.ts:27-29 | a label without `]` and a target without `)` make a link, whatever follows |
| StripMarkdown.PlainLinkShowsLabel | apps/mobile/lib/strip-markdown.ts:28-29 | a plain link shows its label, wherever it stands in plain text |
| StripMarkdown.TidyMergesAndTrims | apps/mobile/lib/strip-markdown.ts:30-33 | line breaks in a row count as one and white space around the text goes; a text without either is left alone |
| StripMarkdown.LinkedImages | apps/mobile/lib/strip-markdown.ts:24-24 | in any serialized message the image rule replaces every `!` with the chip right behind it, and nothing else |
| StripMarkdown.StripShowsImaged | apps/mobile/lib/strip-markdown.ts:20-34 | what a preview shows of any serialized message: every `!` with the chip right behind it as one image, everything else as the user saw it |
| StripMarkdown.StripUndoesSerializeIff | apps/mobile/lib/strip-markdown.ts:20-34 | stripping the serialized text gives what the user saw, up to the collapse of line breaks and the trim, if and only if no text ends with `!` right before a chip |
| StripMarkdown.StripShowsTypedIff | apps/mobile/lib/strip-markdown.ts:20-34 | stripping the serialized text gives what was typed, without marks and the `@` of issues and tidied, if and only if no text ends with `!` right before a chip |
| StripMarkdown.BangTurnsChipIntoImage | apps/mobile/lib/strip-markdown.ts:24-24 | a `!` before a chip, anywhere in a message, makes the preview show an image instead of both |
| Composer.MentionInput.OnChangeText | apps/mobile/lib/use-mention-input.ts:115-124 | the suggestion state is the token under the latest cursor in the new text |
| Composer.MentionInput.OnSelectionChange | apps/mobile/lib/use-mention-input.ts:126-135 | the suggestion state is the token under the new cursor in the latest text |
| Composer.MentionInput.OnAtButtonPress | apps/mobile/lib/use-mention-input.ts:137-154 | the `@` is put in, behind a space unless one or nothing stands before it, and the suggestions open with an empty query |
| Composer.MentionInput.OnSelectMention | apps/mobile/lib/use-mention-input.ts:156-172 | the token is replaced by the chip and the marker goes to the end of the list; without a token nothing happens |
| Composer.MentionInput.Serialize | apps/mobile/lib/use-mention-input.ts:215-218 | what is sent is the serialized form of the current text and markers |
| Composer.InsertedRuns | apps/mobile/lib/mention-serialize.ts:85-106 | an inserted chip reads back as one marked word, the first word of its name |
| Composer.InsertedText | apps/mobile/lib/mention-serialize.ts:85-106 | a pick replaces the `@` and the query by the chip and a space and leaves the cursor right behind them |
| Composer.SelectKeepsLinksIff | apps/mobile/lib/use-mention-input.ts:156-172 | text and markers stay in step if and only if the name is one word and all later chips carry the same name |
| Composer.OutOfStepDropsEveryMark | apps/mobile/lib/use-mention-input.ts:156-172 | otherwise the whole message is sent without any link |
| Composer.ChipsLinkInOrder | apps/mobile/lib/mention-serialize.ts:154-167 | whenever names agree, the k-th chip links to the k-th marker |
| Composer.SelectKeepsOwnMarkersIff | apps/mobile/lib/use-mention-input.ts:156-172 | every chip goes on linking to its own marker if and only if all chips behind the picked one carry that very marker |
| Workspace.DraftsRoundTrip | packages/core/chat/store.ts:28-50 | what is written is read back without the empty drafts, and no other key changes |
| Workspace.DraftsReadBack | packages/core/chat/store.ts:39-50 | draft by draft: exactly the non-empty ones are read back, and without any the key is gone |
| Workspace.ChatKeysAre | packages/core/chat/store.ts:123-126 | the plain key while no workspace is active, else one ending with the slug; workspaces with valid slugs never share one |
| Workspace.AwareReadsBack | packages/core/platform/workspace-storage.ts:106-117 | what was written is read and what was removed is not, under the same slug; with no active workspace nothing is written or read |
| Workspace.NamespacesMeetIff | packages/core/platform/workspace-storage.ts:106-117 | for different slugs some keys share a storage key if and only if one slug ends with a colon and the other |
| Workspace.ValidSlugsApart | packages/views/workspace/slug.ts:1-1 | slugs that a workspace may have never share a storage key |
| Workspace.WritesStayInTheirWorkspace | packages/core/platform/workspace-storage.ts:106-117 | a write or removal under one slug changes no read under another that does not overlap with it |
| Workspace.StepKeepsInvariant | packages/core/platform/workspace-storage.ts:34-64 | every call and every turn of a microtask keeps: flags match the queue, nobody due is forgotten, drafts are current or will be |
| Workspace.RunKeepsInvariant | packages/core/platform/workspace-storage.ts:34-64 | so does every run, re-entrant switches included |
| Workspace.DrainedIsSettled | packages/core/platform/workspace-storage.ts:34-64 | when all microtasks are done, every subscriber present since the last change was last given the current slug and memory holds the current workspace's drafts |
| Workspace.DraftWriteIsLocalIff | packages/core/chat/store.ts:168-174 | writing one session's draft leaves all other stored drafts of the workspace alone if and only if memory and storage agree on those |
| Workspace.SettledDraftWriteIsLocal | packages/core/chat/store.ts:168-174 | so it does in every reachable state in which no rehydration is queued or still to reach the chat store |
| Workspace.SetDraftSetsOne | packages/core/chat/store.ts:168-174 | a written draft is in memory and, unless empty, in storage; memory keeps all others and nothing else changes |
| Workspace.ClearDraftClearsOne | packages/core/chat/store.ts:181-192 | a cleared draft is in neither memory nor storage, memory keeps all others and nothing else changes; clearing an unknown one changes nothing |
| Workspace.DraftClearIsLocalIff | packages/core/chat/store.ts:181-192 | clearing a known draft leaves all other stored drafts alone if and only if memory and storage agree on those |
| Workspace.SettledDraftClearIsLocal | packages/core/chat/store.ts:181-192 | in every reachable state that awaits no rehydration, clearing takes exactly that draft out of the storage |
| Workspace.PersistedIsRead | packages/core/platform/workspace-storage.ts:108-112 | what another store persists is read back under the same slug, and the drafts stay |
| Workspace.SessionIsKept | packages/core/chat/store.ts:154-162 | the active session is what the next rehydration finds, unless none or empty; drafts stay |
| Workspace.ReloadReadsStorage | packages/core/chat/store.ts:212-228 | a rehydration takes drafts and session from the keys of the current workspace and changes nothing else |
| Workspace.EarlyWriteReplacesDrafts | packages/core/chat/store.ts:168-174 | from every settled state with a subscriber, one that writes a draft when told of a new workspace replaces all drafts stored there by the old workspace's |
| Workspace.DraftsCarriedOver | packages/core/chat/store.ts:168-174 | a run from the start that does so, whatever the storage held |
| Workspace.Platform.SetWorkspace | packages/core/platform/workspace-storage.ts:34-64 | the same slug only takes the id; a new one queues each missing task once |
| Workspace.Platform.ScheduleTasks | packages/core/platform/workspace-storage.ts:44-63 | each kind of task is queued at most once, notification first |
| Workspace.Platform.SubscribeToCurrentSlug | packages/core/platform/workspace-storage.ts:80-83 | a new subscriber joins, also the round of notifications in progress; a known one changes nothing |
| Workspace.Platform.UnsubscribeFromCurrentSlug | packages/core/platform/workspace-storage.ts:84-86 | a subscriber leaves at once, also the round in progress |
| Workspace.Platform.RegisterForWorkspaceRehydration | packages/core/platform/workspace-storage.ts:90-92 | a store joins the rehydrations, also the one in progress |
| Workspace.Platform.StartMicrotask | packages/core/platform/workspace-storage.ts:46-62 | the oldest task lowers its flag and starts; a notification fixes the slug it will give |
| Workspace.Platform.CallNextCallback | packages/core/platform/workspace-storage.ts:49-61 | the next subscriber gets the fixed slug, the next store rehydrates from the current one |
| Workspace.Platform.EndMicrotask | packages/core/platform/workspace-storage.ts:46-62 | a microtask ends when nobody is left to call |
| Workspace.Platform.WriteDraftBlob | packages/core/chat/store.ts:39-50 | the pruning loop keeps exactly the non-empty drafts and removes an empty blob |
| Workspace.Platform.SetDraft | packages/core/chat/store.ts:168-174 | memory and storage take the draft together |
| Workspace.Platform.ClearDraft | packages/core/chat/store.ts:181-192 | the draft leaves memory and storage, memory keeps every other one; without a draft nothing changes |
| Workspace.Platform.SetActive | packages/core/chat/store.ts:154-162 | memory and storage take the session together; none and the empty one are removed from storage |
| Inbox.DeduplicateInboxItems | packages/core/inbox/queries.ts:38-59 | grouping and both sorts give the list the lemmas below describe |
| Inbox.DedupIsSorted | packages/core/inbox/queries.ts:55-58 | newest first, no item twice |
| Inbox.DedupShowsNewest | packages/core/inbox/queries.ts:48-54 | every shown item is an active one and newest in its group |
| Inbox.DedupShowsFirstOfNewest | packages/core/inbox/queries.ts:48-54 | of several equally new items of a group, the first in the list is shown |
| Inbox.DedupKeepsOrderOfTies | packages/core/inbox/queries.ts:55-58 | groups with equally new items are shown in order of the groups |
| Inbox.GroupKeysGrow | packages/core/inbox/queries.ts:39-46 | groups come in order of their first active items |
| Inbox.DedupCoversEveryGroup | packages/core/inbox/queries.ts:39-46 | every active item's group is shown |
| Inbox.DedupOncePerGroup | packages/core/inbox/queries.ts:47-54 | no group is shown twice |
| Inbox.UnreadCount | packages/core/inbox/queries.ts:27-28 | the count is that of the unread shown items |
| Inbox.ArchiveDropsTheGroupIff | packages/core/inbox/mutations.ts:34-48 | with distinct ids, archiving gives the old list without the item's group, in the same order, if and only if all other active items of the group name its issue by a non-empty id |
| Inbox.ArchiveDropsTheGroup | packages/core/inbox/mutations.ts:34-48 | so it does when issue ids are not empty and no item id is used as one |
| Inbox.EmptyIssueIdKeepsTheGroup | packages/core/inbox/mutations.ts:39-42 | in any list, archiving one of two active items with an empty issue id does not |
| Inbox.ArchivedItems | packages/core/inbox/mutations.ts:37-46 | item by item: those of the id and those that share the non-empty issue id of the first of them are archived, every other is as before |
| Inbox.MarkReadCountsOnce | packages/core/inbox/mutations.ts:12-19 | with distinct ids, marking read lowers the count by one if and only if the item is shown and unread |
| Inbox.MarkAllReadCountsZero | packages/core/inbox/mutations.ts:63-72 | marking all read leaves no unread item shown |
| Inbox.IssueDeletedDropsTheGroup | packages/core/inbox/ws-updaters.ts:31-39 | a deleted issue takes exactly its group out of the list |
| Inbox.StatusChangeKeepsTheList | packages/core/inbox/ws-updaters.ts:15-26 | a status change reorders and recounts nothing |
| Inbox.InboxQuery.ArchiveOnMutate | packages/core/inbox/mutations.ts:34-48 | the item and its issue's other items are archived, and the deduplicated list loses exactly the group under the condition above |
| Inbox.InboxQuery.MarkReadOnMutate | packages/core/inbox/mutations.ts:12-19 | the item is read, and the unread count falls by one exactly when it was shown and unread |
| Inbox.InboxQuery.MarkAllReadOnMutate | packages/core/inbox/mutations.ts:63-72 | all active items are read and the unread count is zero |
| Inbox.InboxQuery.OnError | packages/core/inbox/mutations.ts:50-51 | the previous list is put back when there was one |
| Inbox.InboxQuery.OnInboxIssueDeleted | packages/core/inbox/ws-updaters.ts:31-39 | items of the deleted issue leave, and the deduplicated list loses exactly its group |
| Inbox.InboxQuery.OnInboxIssueStatusChanged | packages/core/inbox/ws-updaters.ts:15-26 | items of the issue take the status, and the deduplicated list keeps its order |
| Realtime.StreamsConverge | packages/core/realtime/use-realtime-sync.ts:842-850 | the same streamed messages in any order and number give one list on top of any sorted rows: in sequence order, old rows as they were, and exactly the messages whose number no old row has, once each |
| Realtime.StreamsIncrease | packages/core/realtime/use-realtime-sync.ts:842-850 | it increases strictly when the old rows did |
| Sorting.ConvergenceOver | packages/core/realtime/use-realtime-sync.ts:844-850 | the same for any list that admits a key once and sorts |
| Realtime.LifecycleRowsOnce | packages/core/realtime/use-realtime-sync.ts:104-137 | a replayed lifecycle event adds no second row and keeps the other rows in order |
| Realtime.LifecycleCommutesIff | packages/core/realtime/use-realtime-sync.ts:113-121 | over any sorted rows, a lifecycle and a streamed event may swap if and only if one of them has nothing to add, or they claim different numbers, or they bring the very same row |
| Realtime.StageIsReported | packages/core/realtime/use-realtime-sync.ts:104-137 | queued, dispatch, running and waiting events add the row of their stage, by number and text, to their own task where it is missing; a streamed message adds itself where its number is free; no other task's rows change |
| Realtime.PendingIsHeld | packages/core/realtime/use-realtime-sync.ts:911-1037 | in every run the entry holds the task queued last since the last clear, or what it held before the run |
| Realtime.PendingShowsHeldStatus | packages/core/realtime/use-realtime-sync.ts:932-982 | and shows the stage last reported for that task, or the one from before |
| Realtime.LateEventsChangeNothing | packages/core/realtime/use-realtime-sync.ts:932-982 | dispatch, running and waiting events of a superseded or cleared task never change an entry |
| Realtime.ClearedStaysEmpty | packages/core/realtime/use-realtime-sync.ts:992-1037 | after a clear only a later task:queued makes the entry non-empty |
| Realtime.OtherSessionsStay | packages/core/realtime/use-realtime-sync.ts:911-1037 | entries and answers of other sessions stay; a clear empties the entry, and every other event keeps its time of creation |
| Realtime.AnswerStaysOnce | packages/core/realtime/use-realtime-sync.ts:147-166 | once chat:done has come for a loaded list, exactly one message has its id in every later state, and it is the answer unless that id was there before |
| Realtime.ReplayedDoneAddsNothing | packages/core/realtime/use-realtime-sync.ts:160-162 | a replayed chat:done adds nothing however late, and message ids stay unique in every run |
| Realtime.AnswerIsAdded | packages/core/realtime/use-realtime-sync.ts:147-166 | the answer goes to the end of its session's list if and only if it has an id and content, the list is loaded and holds no message of that id; otherwise no list changes |
| Realtime.Sync.OnTaskMessage | packages/core/realtime/use-realtime-sync.ts:842-850 | a message whose number is taken changes no row, any other is sorted in; no other task, entry or answer changes |
| Realtime.Sync.AppendTaskLifecycleMessage | packages/core/realtime/use-realtime-sync.ts:104-137 | only the task's rows change, and only when the very row is missing |
| Realtime.Sync.OnTaskQueued | packages/core/realtime/use-realtime-sync.ts:911-924 | the session's entry takes the task and the stage queued |
| Realtime.Sync.MoveHeldTask | packages/core/realtime/use-realtime-sync.ts:935-942 | only the held task's stage changes |
| Realtime.Sync.OnTaskDispatch | packages/core/realtime/use-realtime-sync.ts:932-943 | the dispatch row is there, and the entry moves to running only when it holds this task |
| Realtime.Sync.OnTaskRunning | packages/core/realtime/use-realtime-sync.ts:950-961 | the started row is there, and the entry moves to running only when it holds this task |
| Realtime.Sync.OnTaskWaitingLocalDirectory | packages/core/realtime/use-realtime-sync.ts:968-982 | the waiting row is there, and the entry moves to waiting only when it holds this task |
| Realtime.Sync.OnTaskCancelled | packages/core/realtime/use-realtime-sync.ts:992-1002 | the session's entry is emptied |
| Realtime.Sync.OnTaskFailed | packages/core/realtime/use-realtime-sync.ts:1020-1037 | the session's entry is emptied |
| Realtime.Sync.ApplyChatDone | packages/core/realtime/use-realtime-sync.ts:139-173 | the answer is added to a loaded list once and the entry is emptied |
| Recency.ViewedIssuesStore.Push | apps/mobile/data/viewed-issues-store.ts:36-41 | one workspace's list changes, to the one the next row describes |
| Recency.ViewedIsRecentDistinct | apps/mobile/data/viewed-issues-store.ts:36-41 | after any pushes a workspace's list is the first ten distinct ids of its reversed history |
| Recency.ViewedIssuesStore.Remove | apps/mobile/data/viewed-issues-store.ts:42-52 | exactly that id leaves that workspace's list |
| RecentContexts.RecentContextStore.Record | packages/core/chat/recent-context-store.ts:40-74 | the visit step, eviction by the reduction over the keys included |
| RecentContexts.RecentContextStore.Forget | packages/core/chat/recent-context-store.ts:75-89 | the forget step; an emptied bucket goes away |
| RecentContexts.RecentContextStore.Prune | packages/core/chat/recent-context-store.ts:90-100 | exactly the active workspaces stay |
| RecentContexts.VisitEvictsTheOldest | packages/core/chat/recent-context-store.ts:62-71 | a full store evicts the least recently visited workspace, never the one just visited |
| RecentContexts.VisitMovesToFront | packages/core/chat/recent-context-store.ts:42-71 | the visited context comes first, an older entry of it goes, and the list is cut to twenty; other workspaces keep their lists, and a fifty-first evicts one |
| RecentContexts.OldestIsFirst | packages/core/chat/recent-context-store.ts:64-68 | of workspaces visited equally long ago, the first key is evicted |
| RecentContexts.ForgetTakesOutOne | packages/core/chat/recent-context-store.ts:75-89 | forgetting takes exactly that context out of that workspace; an emptied workspace goes |
| RecentContexts.PruneKeepsActive | packages/core/chat/recent-context-store.ts:90-100 | the active workspaces stay with their lists, in order, and no other |
| RecentContexts.EntryKeyNamesContext | packages/core/chat/recent-context-store.ts:32-34 | two entries share a key if and only if kind and id are the same |
| RecentContexts.RunKeepsBounds | packages/core/chat/recent-context-store.ts:40-100 | in every run buckets are non-empty, duplicate-free, newest first and at most 20 long, and at most 50 workspaces remain |
| RecentContexts.EveryRunKeepsBounds | packages/core/chat/recent-context-store.ts:38-100 | in particular in every run from the empty store |
| Pagers.FetchProjectGanttIssues | packages/core/issues/queries.ts:326-342 | at most 20 requests against any server; against one that slices a list, its first 10000 issues in order |
| Pagers.ChunkParents | packages/core/issues/queries.ts:442-445 | the chunks are the input cut into pieces of 200, the last of 1 to 200 |
| Pagers.GroupByParent | packages/core/issues/queries.ts:447-458 | the groups are, per non-empty parent, its children in response order |
| Pagers.HydrateChildren | packages/core/issues/queries.ts:459-469 | missing or empty children caches are filled from their group; caches that hold children and all others are left alone |
| Pagers.FetchAndHydrateChildrenByParents | packages/core/issues/queries.ts:436-471 | chunking, grouping and hydration together, for any answers: missing and empty children caches of the groups are filled and no other query is changed |

## Left out

- HTTP, schemas, React wiring, logging and timers: I/O. Server answers, the clock and random choices are parameters.
- The refetching, cancelling and observing that TanStack Query does: only keys, data, prefix matching and the mark that a query is stale are modelled. The order of registration and the marks are not part of what a rollback gives back.
- Invalidation of project, agent, progress, assignee-group and preview queries: marks only, with nothing to prove about them.
- Interleaving of a rollback with other writers: snapshots overwrite such writes by design.
- IssueUpdaters.OnIssueCreated: data under the list key is taken to be bucketed, as everything stored there is; only deletions also read the my-list key, where other data lies, and only they are modelled with their failure.
- Mutations on bucketed data whose buckets are `null`: not distinguished from missing ones.
- Issue fields other than id, status, title, position, parent, project and labels: carried along by every operation alike. Patches never change the id.
- IssueMutations.BatchUpdateRollsBack: assumes that children caches are stored under `children` keys with one parent id, the only ones `issueKeys.children` builds.
- IssueMutations.FailedBatchUpdate: the same assumption on children keys.
- IssueUpdaters.OnIssueDeleted: the recent-issues store's own forget step is not part of this model.
- Labels.OnIssueLabelsChanged: my-list copies are only marked for refetching, as in the program, so coherence says nothing about them.
- Labels.RunKeepsCoherence: assumes that no cached list holds the issue in two paginated buckets, since a label patch reaches only the first.
- TimelineSort.SortTimelineEntriesAsc: the engine's sort is modelled as the stable sort; for two entries with the same id and time the program's comparator is inconsistent and their order is up to the engine.
- String order: by code point instead of UTF-16 code unit; text positions count characters.
- Dates: a function to integers; a date that cannot be read matters in coalescing only.
- TimelineRows.BuildTimelineRows: assumes distinct ids; with a repeated id the queue walk need not terminate.
- StripMarkdown.StripUndoesSerializeIff: ids are assumed free of `)` and `![`, names free of brackets, text free of `[`, without which other markdown is stripped too.
- MentionLinks.ChipsAreHeard: ids are assumed to be `all` or hexadecimal digits and hyphens, as the server's are; names are assumed to be on one line and free of `](`, text to be free of it, and no issue to be called just `@`.
- Composer: the other toolbar insertions, snapshot, restore and reset are left out; they only splice text.
- JSON: a stored value is a record of drafts or an opaque string; writes never fail for lack of space.
- Workspace.DrainedIsSettled: drafts are compared without the empty ones, which are never stored; callbacks that throw are not modelled, and other stores are assumed not to write the drafts key.
- RecentContexts.RunKeepsBounds: assumes that visits carry strictly increasing times; keys are kept in insertion order, as they are unless a workspace id looks like an array index.
- Load-more pagination, the union of my-issue scopes, comment edits and reactions, label creation, presence, permissions, onboarding, the Go server but for its reading of mention links, the daemon and the workflow engine: not part of this model.
