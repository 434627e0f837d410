# A verified model of the chat, circuit-breaker, notification and quota cores

This project restates, in Dafny, the parts of the backend that keep several pieces of state in step with one another,
and proves what they keep over all runs.

- **Chat** (`Base`, `Chat`, `ChatInvariants`, `ChatRuns`, `OwnerRules`, `RoleMap`, `Succession`, `RoleRules`,
  `DirectPairs`, `ChatService`). `Chat` gives, for every service call, the rows it leaves behind and the error code it
  returns; `ChatService` holds the services as a class whose methods set fields one after the other, each proved
  against `Chat` and to achieve what it is for. Over every run the cached participant count, the threads with their
  reply counts and the system-message log agree with the rows: replaying the log, with a fold that refuses any event
  that does not fit, gives the title, the members and the owner. `RoleMap` tells the same calls a second time, by
  roles alone: which succeed, who holds which role afterwards, and which events are told.
- **Edit history and reactions** (`EditHistory`, `Reactions`). Serial calls, and calls split into an unlocked check
  and a later commit, in any interleaving.
- **Search** (`SearchWalk`). Following `next_cursor` over a fixed set of messages.
- **Circuit breaker** (`BreakerCache`, `BreakerWorkers`, `BreakerSolo`, `BreakerAdmission`, `BreakerRuns`, `Breaker`,
  `BreakerService`). Once with every cache access as a step of its own among any number of workers, once with each
  method as a step, and as the class itself. Every key expires on its own.
- **Notifications** (`Preferences`, `PreferencesRace`, `Delivery`, `DeliveryOverlap`). The cached hierarchical
  resolver, also with its read and its cache write apart, its bulk form, and the life of a delivery under repeated
  workers and webhooks, with workers one at a time and overlapping.
- **Storage quota** (`Quota`). The cached byte total against the live files, through single and bulk deletion,
  restoring, new versions, expiry and recalculation.

The chat, edit, reaction, breaker, delivery and quota classes carry their invariant as `Valid()`; their service
methods keep it, or their contracts say exactly when they do.

A service call is one atomic step on freshly read rows, except where an interleaving is modelled: edits, reactions,
delivery workers, the filling of the preference cache, and the breaker. Time is a counter (for the breaker a real
number); in a conversation it advances with every timestamp taken, so `joined_at` values are distinct. Ids of new
rows, provider answers and the presence of a websocket connection come from the environment as parameters. States are
also reachable here that the stubbed senders never produce (permanent and transient provider errors): the branches for
them exist in the code.

## What the code does where a reader may expect otherwise

The model follows the code. Each point is a lemma, with the exact condition where there is one.

- `add_participant` accepts any role text. One undeclared role is enough to leave a group without an owner
  (`GuestStrandsTheGroup`); under all continuations that add only declared roles a group keeps an owner exactly when
  its active roles are declared now (`KeepsOwnerIffDeclared`). A participant with such a role may also remove an admin
  (`AdminsAfter`, `OnlyByLeavingExactly`, `AdminsSafeIffDeclared`, `GuestRemovesAdmin`), and departures of owners then
  end with a group that goes on without one (`SuccessionOrder`, `DeletedExactly`). On additions and removals the
  permission class and the service disagree on undeclared roles and only there (`AddAgreesExactly`,
  `RemovalAgreesExactly`); how they differ on role changes and deletions is in `RoleChangeAgrees` and `DeleteAgrees`.
- `edit_message` does not ask whether the author still participates (`EditAgreesExactly`), so texts of a conversation
  that everybody has left may still change (`EmptyIsFinal`).
- `add_reaction` is documented as idempotent; at the per-user limit the repeat is refused (`AddAgain`). The limit
  itself is tested before the commit and can be passed by two calls at once (`LimitExactly`, `TwoLookupsOverfill`).
- Two removals of one reaction that both find the row let the cached count fall behind (`ExactCommit`,
  `DoubleRemovalDrifts`).
- The search cursor compares ids while results are ordered by rank first (`WalkCompleteExactly`,
  `RelevantOldMessageHidesNewer`).
- Among interleaved workers a call may be admitted before the recovery time is over, without a reset, for four reasons
  and no other (`AdmissionInTime`), each of which happens alone in some run: a stamp is read between the two writes of
  `_open_circuit` (`EarlyByUnstampedPass`); a worker that had passed the old stamp writes HALF_OPEN after the opening
  (`EarlyByLatePass`); a worker that had read HALF_OPEN writes CLOSED over the opening (`EarlyByLateClose`); or the
  call itself had read HALF_OPEN, or been let through, before the opening and counts its trial after it
  (`EarlyByLateTrial`). Workers may also count more trials than allowed, one more for each worker but one
  (`TrialsBounded`, `TrialsOverrun`).
- A stamp of time zero counts as none: a circuit opened at time zero refuses until it is reset or its state key
  expires (`RecoversInTime`, `StaysUnclosedExactly`).
- `set_type_preference` documents None as "inherit"; the code leaves the stored override alone (`OverridesStick`).
- `invalidate_cache` without a type id drops nothing (`ExactAfterMute`), and with one it may come before the write of
  an answer read earlier (`ExactIffTicketsTrue`, `StaleAfterChange`).
- The delivery flow is documented as PENDING, SENT, DELIVERED or PENDING, FAILED. Webhooks also move DELIVERED to
  FAILED and back: with workers one at a time, or once no worker has the row open, a settled delivery has the status
  of the last report under its provider id (`StatusIsLastReport` in both modules), and DELIVERED stays exactly while
  none reports failure (`DeliveredStaysExactly`, `DeliveredFailsAndReturns`).
- `_get_delivery` reads the status without a lock. Two workers that overlap on one delivery may both send it
  (`SentOnceExactly`, `SendsOnceIffApart`, `TwoWorkersSendTwice`), and the later one overwrites a settled row
  (`SettledMoves`, `OnlyReportsIffNoTicket`, `DeliveredBackToSent`, `SkippedLeftForSent`).
- `soft_delete` and `restore` are idempotent on one instance, not on one row (`SoftDeleteExactly`, `RestoreExactly`).
- Expiry of an original version cascades to its later versions, live ones included, without touching the total
  (`ExpireExactly`, `ExpiredOriginalTakesItsVersion`).

## Model

| member | source | states |
|---|---|---|
| `Base.StripMeaning` | app/chat/services.py:210-216 | Stripping cuts white space, and only white space, off both ends: what is left is a piece of the text, empty exactly when the text is all white space, with none at either end |
| `ChatService.Conversation.CreateGroup` | app/chat/services.py:182-266 | Refused exactly for a blank title or an initial member named twice, with nothing created; otherwise the group satisfies the whole invariant, has the stripped title, is owned by the creator, and has exactly the others given as members |
| `ChatService.Conversation.CreateMemberRows` | app/chat/services.py:236-247 | The row loop ends normally exactly when no initial member is repeated, and has then added one plain member row for each, in order |
| `ChatService.Conversation.UpdateTitle` | app/chat/services.py:269-347 | Keeps the invariant; succeeds if and only if an owner or admin of a group gives a title that is not blank; the stripped title is stored and told with the old one; no row changes, and a refusal changes nothing |
| `ChatService.Conversation.DeleteConversation` | app/chat/services.py:350-402 | Keeps the invariant; succeeds if and only if the owner of a group asks, and then marks it with the moment; rows, messages and title are untouched |
| `ChatService.Conversation.AddParticipant` | app/chat/services.py:420-522 | Keeps the invariant; succeeds exactly as the role rules permit; one new row with the role asked for and the event naming both users; ownership and all earlier rows stay |
| `ChatService.Conversation.RemoveParticipant` | app/chat/services.py:525-641 | Keeps the invariant; succeeds exactly as the role rules permit; the target's row is closed with the moment and the remover, the event tells so, and all other rows stay |
| `ChatService.Conversation.TransferOwnershipOnDeparture` | app/chat/services.py:948-1030 | Returns the new owner: nobody if and only if no other active admin or member exists, and then nothing changes; otherwise the admin, or with no admin the member, who joined first, whose role alone changes, with the event told |
| `ChatService.Conversation.Leave` | app/chat/services.py:644-739 | Keeps the invariant; succeeds if and only if the user is a member, whose row is closed with the moment as their own doing; ownership stays unless the owner left; the events told are the transfer, if any, and the removal; the conversation is soft-deleted exactly when nobody is left |
| `ChatService.Conversation.ChangeRole` | app/chat/services.py:742-852 | Keeps the invariant; succeeds exactly when the owner names another active participant and admin or member; the row then has the role asked for, the event tells the old and the new one, and all other rows stay |
| `ChatService.Conversation.TransferOwnership` | app/chat/services.py:855-945 | Keeps the invariant; succeeds if and only if the owner of a group names another member, who then owns it while the old owner is an admin; no other row changes; the event is told |
| `ChatService.Conversation.SendMessage` | app/chat/services.py:1045-1139 | Keeps the invariant; succeeds exactly for an active participant of an undeleted conversation with a text not blank and a parent that exists or none; the new message is the sender's, holds the text without the white space around it, and hangs on the root of the message named, whose count alone grows |
| `ChatService.Conversation.DeleteMessage` | app/chat/services.py:1142-1210 | Keeps the invariant; succeeds exactly for the sender, or a group's owner, on an undeleted text; only the mark of this message changes |
| `ChatService.Conversation.EditMessage` | app/chat/services.py:1213-1339 | Keeps the invariant; succeeds exactly for the author, in time, below ten edits, on an undeleted text, with one not blank; the message then holds the stripped text and counts one edit more; nothing else changes |
| `ChatService.Conversation.MarkAsRead` | app/chat/services.py:1386-1420 | Keeps the invariant; succeeds if and only if the user is a member, whose row then carries the moment as its read mark; no other row and no message changes |
| `ChatService.Conversation.Handle` | app/chat/services.py:269-1420 | Any call of a run, made on the object, keeps the invariant and is the step of the run model, so every theorem about runs holds of the object |
| `ChatService.EditIsUninterrupted` | app/chat/services.py:1213-1339 | The edit within a conversation and the uninterrupted edit of `EditHistory` (check, then locked commit) give the same code and the same message |
| `ChatService.DirectPairTable.CreateDirect` | app/chat/services.py:88-179 | The table of objects moves as the directory of `DirectPairs` does and stays consistent; a known pair gives back the very object at its position, a new one a fresh valid conversation; no entry is dropped |
| `Chat.FindActive` | app/chat/models.py:228-238 | A user's active row, found exactly when one exists |
| `Chat.Oldest` | app/chat/services.py:975-1010 | The candidate with the least `joined_at`, found exactly when there is one |
| `RoleMap.PermittedExactly` | app/chat/services.py:269-1420 | Every one of the eleven calls succeeds if and only if its actor, target and content meet the rules told by roles alone |
| `RoleMap.RefusalsAreTrue` | app/chat/services.py:418-945 | Every refusal of a membership call names something that indeed stands in the way |
| `RoleMap.OtherRefusalsAreTrue` | app/chat/services.py:269-402 | So does every refusal on titles, deletion, leaving and reading |
| `RoleMap.MessageRefusalsAreTrue` | app/chat/services.py:1045-1339 | So does every refusal of sending, deleting and editing messages |
| `RoleMap.RoleAfterCall` | app/chat/services.py:418-1030 | Who holds which role after any call: exactly what the rules told by roles say, and nobody else's role moves |
| `RoleMap.EventsTold` | app/chat/services.py:1454-1496 | Every call but sending, deleting and editing messages appends exactly the events that tell what it did, with who did it and the old and new values, in order, and a refused one none |
| `RoleMap.LogTellsRoles` | app/chat/services.py:831-850 | In every reachable group the last word of the log on an active participant's role is that role, whether it came from a role change, a transfer or a departure |
| `RoleMap.ClosedBy` | app/chat/services.py:606-623 | A row is closed only by its user leaving or by a permitted removal, and then carries the moment, whether it was voluntary, and the remover |
| `RoleMap.RunSigns` | app/chat/services.py:684-700 | Over every run each closed row was closed after it was opened, and names a remover if and only if its user did not leave; open rows carry no such marks |
| `ChatInvariants.KeepsAdd` | app/chat/services.py:420-522 | Adding keeps row order, one active row per user, the cached count, at most one owner, the threads, and the log replay |
| `ChatInvariants.KeepsRemove` | app/chat/services.py:525-641 | So does removal; the removed user is never the owner the log tells of |
| `ChatInvariants.KeepsRole` | app/chat/services.py:742-852 | So does a role change |
| `ChatInvariants.KeepsTransfer` | app/chat/services.py:855-945 | So does a transfer, which swaps one owner for another |
| `ChatInvariants.DepartRows` | app/chat/services.py:644-700 | After a departure the only owner is the successor's row, or nobody; membership loses exactly the leaver |
| `ChatInvariants.DepartLog` | app/chat/services.py:669-711 | The transfer event, told while the leaver is still a member, followed by the removal event replays to the new state |
| `ChatInvariants.StepKeepsInv` | app/chat/services.py:269-1420 | Every call keeps the invariant of rows, threads and log |
| `ChatInvariants.RunKeepsInv` | app/chat/services.py:269-1420 | Every run does |
| `ChatInvariants.ReplayBodies` | app/chat/services.py:1454-1496 | The replay reads system messages only: reply counts, deletions and edits of texts do not disturb it |
| `ChatInvariants.FlattenIsRoot` | app/chat/services.py:1100-1113 | One hop up always reaches a root of the same conversation |
| `ChatInvariants.ThreadsReply` | app/chat/services.py:1115-1132 | Counting a reply at its root keeps every cached reply count equal to the number of messages pointing there |
| `ChatInvariants.ThreadsPartition` | app/chat/services.py:1098-1132 | Messages are the roots plus the sum of all reply counts, soft-deleted ones included |
| `ChatRuns.GroupStarts` | app/chat/services.py:217-266 | A new group satisfies the whole invariant: one owner, the members given, the log telling so |
| `ChatRuns.DirectStarts` | app/chat/services.py:144-172 | So does a new direct conversation |
| `ChatRuns.RunIsLater` | app/chat/services.py:606-623 | Over any run rows are never dropped or reused, and a row with `left_at` set never changes again |
| `ChatRuns.MembershipHistory` | app/chat/services.py:494-505 | In both kinds of conversation, over any run: count equals active rows, one active row per user, closed rows frozen |
| `ChatRuns.EmptyIsFinal` | app/chat/services.py:713-732 | With nobody active the conversation is soft-deleted, and no later call of any run changes anything but the texts of undeleted messages, which their authors may still edit |
| `ChatRuns.OwnerAfter` | app/chat/services.py:855-1030 | Who owns the group after any call: it moves only by the owner's transfer or the owner's departure, to the person named or the successor |
| `ChatRuns.LosesOwnerExactly` | app/chat/services.py:966-1030 | A call leaves participants without an owner if and only if the owner leaves while all others, and there are some, hold undeclared roles |
| `ChatRuns.OwnerlessExactly` | app/chat/services.py:966-1030 | Over every run, whatever roles are asked for: there is an owner at every step with participants if and only if no call of the run is such a departure |
| `OwnerRules.LogTellsEverything` | app/chat/services.py:243-259 | In every reachable group the strict replay from `created_by` never meets an inconsistent event and gives the title, the members and the owner; an empty group is soft-deleted and ownerless. No assumption about roles |
| `OwnerRules.NothingBlankEver` | app/chat/services.py:269-347 | In every reachable group neither the title nor any message text is blank or has white space at an end |
| `OwnerRules.AlwaysOneOwner` | app/chat/services.py:182-266 | From `create_group` on, over every run: exactly one active owner at every step at which anybody is active, if and only if no call is an owner's departure without heirs; runs that add only declared roles have no such call |
| `OwnerRules.Strand` | app/chat/services.py:458-470 | With an undeclared role among the active rows, a run of ordinary calls that strands the group is constructed |
| `OwnerRules.KeepsOwnerIffDeclared` | app/chat/services.py:458-470 | A group keeps an owner under every continuation with declared roles if and only if all its active roles are declared now |
| `OwnerRules.GuestStrandsTheGroup` | app/chat/services.py:420-427 | Concrete run: role text `guest` is accepted, the owner leaves, the group lives on without an owner |
| `OwnerRules.AdminsAfter` | app/chat/services.py:586-604 | One call by a non-owner makes no admin, and unmakes one if and only if that admin leaves, or a participant whose own role is undeclared removes that admin |
| `OwnerRules.StaysUndeleted` | app/chat/services.py:713-732 | No call by a non-owner soft-deletes a group that has an owner |
| `OwnerRules.OwnerFreeRun` | app/chat/services.py:465-484 | Runs without the owner, whatever the roles: same owner, same deletion mark, admins only shrink; with declared roles only by admins leaving |
| `OwnerRules.OnlyByLeavingExactly` | app/chat/services.py:586-604 | In a run without the owner admins go only by leaving if and only if no step is a removal of an admin by someone with an undeclared role |
| `OwnerRules.AdminsSafeIffDeclared` | app/chat/services.py:586-604 | Over all continuations without the owner that add only declared roles, admins go only by leaving if and only if no undeclared role is active now or there is no admin |
| `OwnerRules.GuestRemovesAdmin` | app/chat/services.py:586-604 | Concrete run from `create_group`: a participant added with the role text `guest` removes an admin, without any call by the owner |
| `Succession.HeirsAdvance` | app/chat/services.py:948-1030 | One departure of the owner crowns the first heir and leaves the rest of the list of heirs unchanged |
| `Succession.PromotedList` | app/chat/services.py:975-1022 | Promoting the first heir and closing the old owner's row removes exactly the first entry of the list of heirs |
| `Succession.DeclaredAsBefore` | app/chat/services.py:669-700 | After a departure of the owner all active roles are declared if and only if they were before |
| `Succession.SuccessionOrder` | app/chat/services.py:643-739 | Any group with an owner, owners leaving one after the other: the reigns are the owner, all admins, all members, each by `joined_at`, and nobody else; until then the deletion mark does not move; then all who remain, the rest of the active rows, hold undeclared roles, and the group is soft-deleted if and only if there are none |
| `Succession.DeletedExactly` | app/chat/services.py:713-732 | After as many departures of owners as there were participants nobody is left if and only if all roles were declared; and then the group is soft-deleted then and not before |
| `RoleRules.AddAgreesExactly` | app/chat/permissions.py:196-220 | `CanManageParticipants` and the service agree on an addition if and only if no undeclared role is involved in the way stated |
| `RoleRules.RemovalAgreesExactly` | app/chat/permissions.py:221-235 | The same for removals of active participants; the owner case needs the one-owner invariant |
| `RoleRules.DeclaredRolesAgree` | app/chat/services.py:562-604 | With declared roles the two statements of the add and remove rules are one rule |
| `RoleRules.RoleChangeAgrees` | app/chat/services.py:811-823 | On role changes they agree on rank; what the class allows and the service still refuses is the owner changing their own role |
| `RoleRules.EditAgreesExactly` | app/chat/permissions.py:255-272 | Of a text that is not blank and a message not deleted, `CanModifyMessage` allows the edit if and only if `edit_message` does not refuse it on author or kind; who participates makes no difference to the latter |
| `RoleRules.DeleteAgrees` | app/chat/permissions.py:255-272 | What `CanModifyMessage` allows, `delete_message` never refuses on rank or kind; what it deletes beyond that is another user's message, deleted by the group's owner |
| `DirectPairs.OnePerPair` | app/chat/models.py:292-303 | In every run at most one direct conversation per unordered pair of users |
| `DirectPairs.DirectForLife` | app/chat/services.py:374-378 | From any moment of its life to any later one a direct conversation keeps exactly the same two rows (users, `joined_at`), and is soft-deleted if and only if both have left |
| `DirectPairs.SameConversationForever` | app/chat/services.py:119-172 | Once opened, both argument orders return the same conversation after any run |
| `DirectPairs.AfterExactly` | app/chat/services.py:88-179 | Every call of a run does to the directory exactly what it is for: opens or finds the pair's conversation, adds one group, or steps one conversation |
| `EditHistory.MessageRow.CommitLocked` | app/chat/services.py:1289-1333 | Succeeds if and only if the row is not deleted and below ten edits; the text, the count, the time and one history entry with the old text are then written, and the history stays that of the list of versions; a refusal writes nothing |
| `EditHistory.MessageRow.EditMessage` | app/chat/services.py:1213-1339 | Succeeds exactly for the author within 900 seconds on an undeleted text below ten edits, with one not blank; the stripped text becomes the newest version |
| `EditHistory.HistoryIsComplete` | app/chat/services.py:1243-1333 | Any interleaving of checks, locked commits and deletions: numbers 1..edit_count, history plus current content is the list of all versions, original is the first version once edited, at most 10, each asked for by the author in time |
| `EditHistory.FrozenAfterDeletion` | app/chat/services.py:1289-1296 | After deletion no commit, whenever its check was, changes text or history |
| `EditHistory.CommitOutcome` | app/chat/services.py:1297-1333 | A commit either adds its text as the newest version or changes nothing, decided by deletion and limit alone |
| `EditHistory.ChecksAndMarks` | app/chat/services.py:1243-1287 | A call gets past its check exactly for the author in time, or with permission, on an undeleted text; a deletion marks the row with the moment and changes nothing else |
| `Reactions.Message.UpdateReactionCount` | app/chat/services.py:1539-1570 | Only this emoji's count moves, and no entry of zero is left for it |
| `Reactions.Message.AddReaction` | app/chat/services.py:1573-1657 | Keeps the cache exact and the limit; succeeds exactly for an active participant below the limit on an undeleted message with an acceptable emoji; the rows then grow by exactly this one |
| `Reactions.Message.RemoveReaction` | app/chat/services.py:1660-1714 | Keeps the cache exact and the limit; succeeds exactly for an active participant who has the reaction, even on a deleted message; exactly this row goes |
| `Reactions.Message.ToggleReaction` | app/chat/services.py:1717-1804 | Keeps the cache exact and the limit; on success the row is there exactly if it was not, and no other row moves; refused exactly for a bad emoji, a deleted message, an outsider, or a new reaction at the limit |
| `Reactions.GetMessageReactions` | app/chat/services.py:1807-1851 | The grouping loop reports, per emoji, the number of rows, whatever the order |
| `Reactions.SerialCacheExact` | app/chat/services.py:1538-1570 | Serial runs, in which the message may be deleted and participants come and go: the cached map equals the reported one, has no zero entry, and nobody exceeds five reactions |
| `Reactions.ExactDelete` | app/chat/services.py:1556-1570 | Removing a row that is there keeps the cache exact and never needs the clamp |
| `Reactions.AddAgain` | app/chat/services.py:1582-1585 | A repeated add changes nothing, and succeeds if and only if the user is below the limit |
| `Reactions.ToggleUndoes` | app/chat/services.py:1717-1804 | Toggling twice restores reactions and cached counts, and the second toggle is never refused |
| `Reactions.InterleavedNeverOver` | app/chat/services.py:1696-1714 | With lookup and commit as separate steps the cached count never exceeds the true one |
| `Reactions.ExactCommit` | app/chat/services.py:1696-1714 | A commit on an exact cache leaves it exact if and only if it is not the removal of a row already gone for an emoji still in use |
| `Reactions.InterleavedExact` | app/chat/services.py:1636-1657 | An interleaved run keeps the cache exact at every step if and only if it makes no such commit |
| `Reactions.LimitExactly` | app/chat/services.py:1614-1657 | In an interleaved run nobody exceeds five reactions at any step if and only if no addition commits after its user has reached the limit |
| `Reactions.LimitIffRoom` | app/chat/services.py:1614-1657 | With no further lookups nobody exceeds five reactions in any order of commits if and only if, for each user, the reactions there and the open additions are five at most |
| `Reactions.TwoLookupsOverfill` | app/chat/services.py:1614-1657 | From any state with four reactions, two additions looked up before either commits leave six |
| `Reactions.DoubleRemovalDrifts` | app/chat/services.py:1696-1714 | Two removals that find the same row: the other user's reaction is no longer shown |
| `Reactions.CallsExactly` | app/chat/services.py:1573-1804 | What every call of a run does to the rows, and the world around to the message |
| `SearchWalk.SortedUnique` | app/chat/services.py:2080 | The order by rank, time and id lists a set in one way only |
| `SearchWalk.PageMeaning` | app/chat/services.py:2065-2099 | One page holds the best matches below the cursor, as many as asked for but at most 100, by rank, then newest, then highest id; more is announced exactly when there is more |
| `SearchWalk.CursorDecreases` | app/chat/services.py:2065-2099 | The next cursor is the id of a match below the last cursor, so following cursors ends |
| `SearchWalk.NextPageSplit` | app/chat/services.py:2065-2073 | If the ids split at the page boundary, the next query selects exactly the rest |
| `SearchWalk.NextPageForced` | app/chat/services.py:2065-2073 | If the following pages show exactly the rest, the ids split at the boundary |
| `SearchWalk.WalkCompleteExactly` | app/chat/services.py:2065-2099 | The pages together are the full ordered result if and only if the ids split at every page boundary |
| `SearchWalk.WalkComplete` | app/chat/services.py:2079-2099 | When the order agrees with descending ids nothing is missed or repeated, for every page size from 1 |
| `SearchWalk.RelevantOldMessageHidesNewer` | app/chat/services.py:2070-2073 | Concrete case: an older, better match hides a newer message |
| `BreakerWorkers.ClosedMeansBelowThreshold` | app/core/circuit_breaker.py:205-263 | Any number of interleaved workers, keys expiring at any time: CLOSED with the live count at the threshold implies a worker mid-record |
| `BreakerWorkers.MoveKeeps` | app/core/circuit_breaker.py:356-408 | Every single cache access keeps the invariant behind it: an overdue count is covered by an unclosed state that outlives it, or somebody is mid-record |
| `BreakerSolo.SoloIsAtomic` | app/core/circuit_breaker.py:149-314 | Any call of any worker run without interference leaves the cache the atomic method leaves: the two models are one apart from the interleaving |
| `BreakerSolo.SoloAnswers` | app/core/circuit_breaker.py:149-203 | And it admits at one of its steps if and only if the atomic method answers yes |
| `BreakerAdmission.AdmissionInTime` | app/core/circuit_breaker.py:149-263 | Any number of interleaved workers, from any state in which one opens the circuit, for every admission (CLOSED read, or a trial counted), with a recovery time within the key lifetime: not before the recovery time, unless the circuit was reset, or a worker wrote HALF_OPEN or CLOSED on what it had read before the opening, or HALF_OPEN on a stamp read between the two writes of an opening, or this very call had read HALF_OPEN or been let through before the opening |
| `BreakerAdmission.LetThroughAfterOpening` | app/core/circuit_breaker.py:166-182 | Whoever is let through from OPEN read the stamp before and waited since; with nobody between the two writes of an opening at that read, and no opening since, this is at least the recovery time after every opening so far |
| `BreakerRuns.EarlyByUnstampedPass` | app/core/circuit_breaker.py:389-392 | Reachable early admission, by a stamp read between the two writes of the opening and by none of the other causes |
| `BreakerRuns.EarlyByLatePass` | app/core/circuit_breaker.py:166-182 | Another, only by a HALF_OPEN written after both writes of the opening by a worker that had passed the old stamp |
| `BreakerRuns.EarlyByLateClose` | app/core/circuit_breaker.py:213-217 | Another, only by a CLOSED written over the opening for a success whose worker had read HALF_OPEN |
| `BreakerRuns.EarlyByLateTrial` | app/core/circuit_breaker.py:186-191 | Another, only by a trial counted, while the state is OPEN, by a call that had read HALF_OPEN |
| `BreakerAdmission.TrialsBounded` | app/core/circuit_breaker.py:186-191 | Over every run of N interleaved workers the trial counter stays within the limit plus N - 1 |
| `BreakerRuns.TrialsOverrun` | app/core/circuit_breaker.py:186-191 | That bound is met: two workers, two trials allowed, three counted |
| `Breaker.AdmissionRules` | app/core/circuit_breaker.py:149-192 | Methods as atomic steps, any expiry: no admission before the recovery time after an opening not reset, bounded trials per half-open episode, a live OPEN state has its live stamp |
| `Breaker.NoEarlyAdmission` | app/core/circuit_breaker.py:166-182 | Said of two moments of a run: an opening and a later admission with no reset between are at least the recovery time apart |
| `Breaker.RefusedOnlyAfterOpening` | app/core/circuit_breaker.py:163-182 | Over every run from an empty cache a call is refused only after an opening that was not reset: a service that never fails is never refused |
| `Breaker.OpensOnlyAtThreshold` | app/core/circuit_breaker.py:250-263 | Over every run, outside a trial the circuit opens only after at least as many failures in a row as the threshold |
| `Breaker.FailuresInARow` | app/core/circuit_breaker.py:250-263 | From CLOSED, n failures at one moment open the circuit if and only if the live count then reaches the threshold |
| `Breaker.RecoversInTime` | app/core/circuit_breaker.py:166-182 | A circuit whose OPEN key is live admits if and only if its (nonzero) stamp is past the recovery time |
| `Breaker.StaysUnclosedExactly` | app/core/circuit_breaker.py:205-230 | Over every run an open or half-open circuit stays unclosed at every step if and only if no step is a success on trial, a reset, or the expiry of the state key |
| `Breaker.NoEarlyClosing` | app/core/circuit_breaker.py:205-230 | Over every run, CLOSED is read after an opening not reset only when the recovery time is over |
| `BreakerService.CircuitBreaker.IsAvailable` | app/core/circuit_breaker.py:149-203 | CLOSED always admits and changes nothing; HALF_OPEN admits exactly below the trial limit and counts one; OPEN admits exactly past the recovery time, going half-open with one trial; the answer is logged, the admission rules are kept, and whoever is admitted comes at least the recovery time after the latest opening |
| `BreakerService.CircuitBreaker.RecordSuccess` | app/core/circuit_breaker.py:205-230 | A half-open circuit closes, no other state changes, failures are forgotten, stamp and trials stay; the admission rules are kept |
| `BreakerService.CircuitBreaker.RecordFailure` | app/core/circuit_breaker.py:232-269 | Opens, with a fresh stamp, exactly when half-open or when this failure makes the live count reach the threshold; counts it unless half-open; the admission rules are kept |
| `BreakerService.CircuitBreaker.Reset` | app/core/circuit_breaker.py:296-314 | State, failures and trials are as new, the stamp of the last opening stays; the admission rules are kept |
| `BreakerService.CircuitBreaker.Handle` | app/core/circuit_breaker.py:149-314 | Any call of a run, or time passing, on the object is the step of the run model and keeps the admission rules, so the theorems about runs hold of the keys |
| `Preferences.HierarchyMeaning` | app/notifications/preferences.py:139-241 | A channel is on if and only if the type supports it, no level is off, and it is not overridden to off; blocked is exactly some level off, and the reason the highest such level |
| `Preferences.SameAnswer` | app/notifications/preferences.py:336-401 | The bulk path's resolver, given the rows, agrees with the single path in every case |
| `Preferences.ResolveBulk` | app/notifications/preferences.py:271-333 | The loop answers exactly the listed users, each as the uncached single path would |
| `Preferences.PreferenceService.Resolve` | app/notifications/preferences.py:104-137 | A live entry is returned as it is; otherwise the answer is the database's, and is cached for exactly 300 seconds unless the cache is bypassed; no other entry moves |
| `Preferences.PreferenceService.SetTypePreference` | app/notifications/services.py:577-648 | Each given value is stored and each other one kept; the channels are then on exactly as the levels say; no other user's or type's answer changes, and no cached answer for this user and type survives |
| `Preferences.PreferenceService.SetCategoryPreference` | app/notifications/services.py:526-574 | An unknown category changes nothing; otherwise every channel of its types is on exactly when the switch is off, supported and unopposed at the other levels; no answer outside changes |
| `Preferences.PreferenceService.SetGlobalPreference` | app/notifications/services.py:491-523 | Every channel of every type is on for this user exactly when the switch is off, supported and unopposed at the lower levels; so unmuting brings back exactly what they allow; no other user's answer changes |
| `Preferences.PreferenceService.ResetPreferences` | app/notifications/services.py:651-683 | For this user every supported channel of every type is on again; no other user's answer changes |
| `Preferences.OverridesStick` | app/notifications/services.py:609-635 | A given value decides the channel; one not given leaves the override, so an override can be flipped but never withdrawn |
| `Preferences.AnswersAreRecent` | app/notifications/preferences.py:104-137 | After any run, in which preferences and the notification types themselves change, a cached answer is what the tables said at some moment less than 300 seconds ago |
| `Preferences.StepStores` | app/notifications/services.py:491-683 | What every step of a run leaves in the tables, and everything else as it was |
| `Preferences.ExactAfterTypeChange` | app/notifications/services.py:637-638 | Right after a type change the answer for that user and type is exact |
| `Preferences.ExactAfterMute` | app/notifications/preferences.py:244-268 | Right after a global or category mute it is exact if and only if no live entry says otherwise |
| `PreferencesRace.ExactIffTicketsTrue` | app/notifications/preferences.py:104-137 | With read and cache write of a miss apart: after a type change, and as long as nothing else changes, every answer for that user and type is exact if and only if nobody has an answer open that is no longer true |
| `PreferencesRace.StaleAfterChange` | app/notifications/preferences.py:104-137 | Concrete case: an answer read before the change and saved after it blocks nothing though the type is off |
| `Delivery.BuildDeliveries` | app/notifications/services.py:238-329 | Exactly one delivery per supported channel, pending or skipped with the right reason |
| `Delivery.EnqueuePending` | app/notifications/services.py:340-348 | Enqueued are exactly the pending ones, each once |
| `Delivery.CreateDeliveries` | app/notifications/services.py:225-348 | End to end: enqueued are exactly the supported channels the preferences leave on, each once |
| `Delivery.CreatedFor` | app/notifications/preferences.py:139-241 | From the preference tables to the new row: pending exactly when no level and no override speaks against the channel, else skipped with the highest level that does |
| `Delivery.MadeForChannel` | app/notifications/services.py:238-329 | The rows that enter a run are those deliveries, each under its own id |
| `Delivery.NotificationDelivery.SendPushNotification` | app/notifications/tasks.py:157-239 | A pending push delivery ends sent with time and id, failed for good with code and time, or pending with one attempt more, as the provider answers; anything but PENDING is left alone; a healthy row stays healthy |
| `Delivery.NotificationDelivery.SendEmailNotification` | app/notifications/tasks.py:242-328 | The same for an email delivery; without an address it ends skipped for that reason and no attempt is counted |
| `Delivery.NotificationDelivery.BroadcastWebsocketNotification` | app/notifications/tasks.py:331-416 | A pending websocket delivery ends delivered with both times, skipped for want of a connection, or pending with one attempt more; never in SENT |
| `Delivery.NotificationDelivery.UpdateDeliveryStatus` | app/notifications/webhooks.py:148-207 | The status is the reported one with its time; code and permanence only of a failure, permanent for four codes exactly; sending time, provider id and attempts stay; a healthy row stays healthy |
| `Delivery.AtMostOneFound` | app/notifications/webhooks.py:166-175 | A webhook's lookup by provider id never matches two deliveries |
| `Delivery.AppliedOk` | app/notifications/tasks.py:67-148 | Every run of a worker or webhook on a healthy row is one of the allowed moves, and hands over exactly when the sending time appears |
| `Delivery.StepKeeps` | app/notifications/tasks.py:67-416 | Every step keeps all rows healthy and moves each row only in the allowed ways |
| `Delivery.LifeCycle` | app/notifications/tasks.py:67-405 | Over every run of workers that do not overlap: each delivery handed over at most once, sent or delivered implies a sending time |
| `Delivery.NeverBack` | app/notifications/webhooks.py:166-207 | Workers one at a time: over every further run: PENDING never re-entered, SKIPPED and a worker's own failure never left, the sending time fixed, a settled websocket delivery final (webhooks never change one) |
| `Delivery.WorkersReach` | app/notifications/tasks.py:157-416 | In a run every worker reaches its own delivery, with the effect of its channel, and no other row |
| `Delivery.HandOversListed` | app/notifications/tasks.py:90-108 | Every sending time that appears is a hand-over on the list, and the list grows by nothing else |
| `Delivery.NextStatus` | app/notifications/webhooks.py:166-207 | Workers one at a time: once a delivery is not pending, its status moves exactly by webhooks under its provider id, each of which decides it alone |
| `Delivery.DeliveredLeftExactly` | app/notifications/webhooks.py:181-200 | Workers one at a time: DELIVERED is left if and only if a webhook reports failure under the provider id, and then for FAILED |
| `Delivery.FailedLeftExactly` | app/notifications/webhooks.py:176-180 | Workers one at a time: FAILED is left if and only if a webhook reports delivery under the provider id, and then for DELIVERED; never after a failure found by a worker |
| `Delivery.StatusIsLastReport` | app/notifications/webhooks.py:166-207 | Workers one at a time: over every run a settled delivery has the status of the last report under its provider id, or else the one it had |
| `Delivery.DeliveredStaysExactly` | app/notifications/webhooks.py:181-200 | Workers one at a time: a delivered row is delivered at every step of a run if and only if no webhook of the run reports failure under its provider id |
| `Delivery.DeliveredFailsAndReturns` | app/notifications/models.py:86-97 | Concrete run from the empty table: sent, delivered, failed, delivered again |
| `DeliveryOverlap.UndisturbedIsAtomic` | app/notifications/tasks.py:67-148 | A row nobody touched since it was read is saved as if the worker had run in one step |
| `DeliveryOverlap.SentOnceExactly` | app/notifications/tasks.py:67-108 | Workers overlapping in any way: every delivery is handed over at most once at every step if and only if no accepted answer is saved to a row sent after its worker had read it |
| `DeliveryOverlap.ExclusiveSendsOnce` | app/notifications/tasks.py:67-108 | One worker at a time for each delivery is enough for that |
| `DeliveryOverlap.SendsOnceIffApart` | app/notifications/tasks.py:67-148 | Over all continuations in which no worker begins on a delivery another has open, nothing is handed over twice if and only if no two workers have the same delivery open now, and none a sent one |
| `DeliveryOverlap.TwoWorkersSendTwice` | app/notifications/tasks.py:67-87 | Concrete run: two workers both read the delivery pending, and both hand it over |
| `DeliveryOverlap.SettledMoves` | app/notifications/tasks.py:67-148 | Workers overlapping in any way: status and sending time of a settled row move exactly by reports under its provider id and by outcomes saved by workers that had read it pending; it is never pending again |
| `DeliveryOverlap.PendingIsOver` | app/notifications/tasks.py:67-148 | PENDING is never re-entered, over every run of overlapping workers |
| `DeliveryOverlap.DeliveredStaysExactly` | app/notifications/webhooks.py:166-207 | Overlapping workers: a row is delivered at every step of a run if and only if every report and every such save that reaches it says delivered |
| `DeliveryOverlap.StatusIsLastReport` | app/notifications/webhooks.py:166-207 | Overlapping workers: a settled row that nobody has open has, after any run, the status of the last report under its provider id, and its sending time stays |
| `DeliveryOverlap.OnlyReportsIffNoTicket` | app/notifications/tasks.py:67-148 | Over all continuations, a settled row moves only by reports if and only if no worker has it open now |
| `DeliveryOverlap.DeliveredBackToSent` | app/notifications/tasks.py:67-148 | Concrete run: a second worker's save takes a confirmed delivery back to SENT |
| `DeliveryOverlap.SkippedLeftForSent` | app/notifications/tasks.py:67-148 | Concrete run: a second worker's save takes a skipped delivery to SENT |
| `Quota.MediaStore.AddStorageUsage` | app/authentication/models.py:390-408 | This user's total grows by exactly the bytes; quotas and other users' totals stay; users without a profile are passed over |
| `Quota.MediaStore.SubtractStorageUsage` | app/authentication/models.py:410-432 | This user's total falls by exactly the bytes, or to zero if there were fewer; quotas and other users' totals stay |
| `Quota.MediaStore.CreateFromUpload` | app/media/serializers.py:98-140 | Keeps the law; accepted if and only if the size is positive and the true usage stays within the quota; then one live file of this size and user, charged |
| `Quota.MediaStore.CreateNewVersion` | app/media/models/media_file.py:426-508 | Keeps the law; accepted if and only if the uploader asks, the size is positive and the true usage stays within the quota; then one live file in the same version group, charged |
| `Quota.MediaStore.SoftDelete` | app/core/model_mixins.py:144-166 | On an instance that believes itself live the row is marked with the moment and a live row's size released; otherwise nothing happens; keeps the law on an instance that knows its row; nobody else's profile moves |
| `Quota.MediaStore.Restore` | app/core/model_mixins.py:181-200 | On an instance that believes itself deleted the row is live again and its size charged; otherwise nothing happens; keeps the law on an instance that knows its row; nobody else's profile moves |
| `Quota.MediaStore.DeleteQuerySet` | app/core/managers.py:81-117 | Keeps the law; marks with the moment exactly the live rows of the queryset, reports how many, and lowers each user's total by exactly the bytes of theirs; all other rows and all quotas stay |
| `Quota.MediaStore.RestoreQuerySet` | app/core/managers.py:140-171 | Keeps the law; unmarks exactly the deleted rows of the queryset, reports how many, and raises each user's total by exactly the bytes of theirs; all other rows and all quotas stay |
| `Quota.MediaStore.HardDeleteExpiredFiles` | app/media/tasks.py:1205-1310 | Deleting row by row, in any order, with the cascade, removes exactly the files deleted longer ago than the retention time and all versions of such originals; the law survives if and only if none of these was live |
| `Quota.MediaStore.RecalculateUserStorageQuota` | app/media/tasks.py:1053-1140 | The difference reported is the true sum minus the cached total, and the total is corrected to the true sum |
| `Quota.SumSizes` | app/media/tasks.py:1107-1112 | The sum does not depend on the order of the rows |
| `Quota.SoftDeleteExactly` | app/core/model_mixins.py:158-166 | With a possibly stale instance the law is kept if and only if the row was not deleted behind its back (or nothing was charged anyway) |
| `Quota.RestoreExactly` | app/core/model_mixins.py:194-200 | With a possibly stale instance restoring keeps the law if and only if the row is not already live |
| `Quota.BulkDeleteStepwise` | app/core/managers.py:104-117 | After any number of hooks the totals already fit the rows about to be marked, so one bulk update at the end is enough |
| `Quota.BulkRestoreStepwise` | app/core/managers.py:159-171 | The same when restoring: charges after any number of hooks fit the rows about to be unmarked |
| `Quota.ExpireExactly` | app/media/tasks.py:1237-1240 | Expiry keeps the law if and only if no live version hangs on an expired original |
| `Quota.FateOfFiles` | app/core/managers.py:81-171 | In every step of a run every file is removed, marked with the moment, unmarked or left alone, exactly as told by its own state and the call |
| `Quota.FilesFromUploads` | app/media/models/media_file.py:374-508 | New files come from accepted uploads and versions only, accepted exactly within the true usage, one each, and say whose they are and to which group they belong |
| `Quota.QuotaConserved` | app/authentication/models.py:388-432 | Over every run on fresh instances: each total is the sum of the user's live file sizes at every step, if and only if no expiry of the run takes a live file |
| `Quota.ConservedFromEmpty` | app/authentication/models.py:388-432 | The same for every run from the empty table, with nothing assumed but zero totals |
| `Quota.ClampIdle` | app/authentication/models.py:425-432 | Under the law GREATEST(..., 0) never clips |
| `Quota.RecalculationFinds` | app/media/tasks.py:1107-1121 | Recalculation changes nothing for anybody if and only if the law holds; in any state it restores the law for its user and leaves the other totals alone |
| `Quota.UploadWithinQuota` | app/authentication/models.py:378-388 | An accepted upload keeps the true usage within the quota |
| `Quota.ExpiredOriginalTakesItsVersion` | app/media/models/media_file.py:244-249 | Concrete case: expiry of an original removes its live version and leaves the total too high |

## Left out

- SuccessionOrder: takes rows in `joined_at` order with distinct times, as the conversation's clock gives them.
- NoEarlyAdmission: for methods taken as atomic steps and a recovery time within the key lifetime; `AdmissionInTime` is the statement for interleaved workers.
- AnswersAreRecent: time is in whole seconds and the database read of a miss is one step with the cache write; `PreferencesRace` takes them apart, for type changes.
- LifeCycle: workers run only on deliveries of their own channel, one at a time; overlapping ones are in `DeliveryOverlap`. A crash between the provider call and the row update is not modelled.
- NeverBack: for workers one at a time; `SettledMoves` is what holds when they overlap.
- NextStatus: for workers one at a time; `SettledMoves` is what holds when they overlap.
- DeliveredLeftExactly: for workers one at a time; `DeliveryOverlap.DeliveredStaysExactly` is what holds when they overlap.
- FailedLeftExactly: for workers one at a time; `SettledMoves` is what holds when they overlap.
- StatusIsLastReport: for workers one at a time; `DeliveryOverlap.StatusIsLastReport` is what holds when they overlap.
- DeliveredStaysExactly: for workers one at a time; `DeliveryOverlap.DeliveredStaysExactly` is what holds when they overlap.
- `DoEdit` takes the outcome of the time limit from outside; the seconds are in `EditHistory`.
- Runs may name a message position that does not exist (a call without effect); the original is handed a row object.
- Overlapping calls on one group (role checks run outside the transaction), and instances read before another call changed the row, except the deletion flag in `Quota` and the modelled interleavings.
- Column lengths (title 100 characters, emoji column 8 including a trailing space) and the database errors they raise; message length, which this service does not check.
- `last_message_at`, `updated_at`, attachments, unread counts, `get_edit_history` ordering, `get_user_reactions`, the JSON text of system messages (events are values here).
- Concurrent `create_direct` of the same pair: the constraint and its retry by the database are seen only as a serial lookup.
- Notification templates, actor and content objects, the idempotency key, read marks; pushing to websocket consumers.
- HMAC checks and request serializers of the webhooks; the delivery statuses they do not accept.
- Retry scheduling and back-off of workers: any number of re-runs at any time is allowed instead.
- `cache.incr` as read and write: it is one access; cache outages and the fail-open branches; worker crashes inside a breaker method; `get_status`; the `call` context manager, which only brackets the modelled methods.
- Quarantine and chunked uploads (they change totals by other rules), hard deletion by request, cascades from deleting users: these are not steps of the quota runs.
- Storage back ends, asset and share rows, version numbers and `is_current`, failed deletions of single expired files.
- Full-text ranking: rank is any fixed number per message; access filtering and the encoding of the cursor.
- Presence, views, authentication flows, media scanning, and the empty or stub modules: no state shared with the above.
