# Speech corpus moderation and statistics, in Dafny

This project models the moderation and statistics layer of a speech-corpus
backend. Contributors (persons) record audio for sentences. Moderators approve
or reject the recordings. The services report who contributed what.

The model covers:

- the two schemas (`Person`, `Sentence`) and the recording document the services use;
- the mapper that flattens a populated recording for the API;
- the recording service: the paginated listing with its global counts, approval
  with its duplicate-content guard, rejection, and the listing by status;
- the person service:
  - guest creation, login, renaming, deletion and bulk approval;
  - the user listing with statistics, and the search by email;
  - the user detail;
  - the four contributor rankings and the contribution listing.

The store is the class `Database.Store`. Its three collections are sequences in
insertion order, and a `nextId` counter stands in for ObjectId generation. Each
state-changing service call is two things:

- a pure function from a snapshot (`Database.Db`) to the new snapshot and the result;
- a method on the store proved equal to that function.

The read-only services are functions over the snapshot. Where the source fills
lookup objects in a loop (`getUsers`, `getTopContributors`,
`getUsersBySentenceCount`), the model has a method with that loop. The method is
proved equal to the function that specifies it.

Mongo's aggregation stages are modelled in module `Pipeline`:

- a `$group` stage yields one row per distinct key, in order of first
  occurrence (`Keys`, `WithKey`, `CountKey`);
- `$sort` and the JavaScript `Array.prototype.sort` are one stable descending
  sort (`SortDesc`);
- `skip`/`limit` and `Array.prototype.slice` are `Page`;
- `Math.ceil(n / limit)` is `CeilDiv`;
- a lookup object filled by `forEach` keeps the last row per key (`LastByKey`, `IndexBy`).

## Model

| member | source | states |
|---|---|---|
| Common.ZeroToNull | src/utils/recording.mapper.js:6 | `x \|\| null` on a number: null exactly when the value is missing or 0, otherwise the value itself |
| Common.EmptyToNull | src/utils/recording.mapper.js:10-11 | `x \|\| null` on a string: null exactly when the value is missing or empty, otherwise the value itself |
| Text.Trim | src/services/person.service.js:8 | the trimmed string is no longer than the input and neither starts nor ends with white space |
| Text.TrimStrips | src/services/person.service.js:8 | the trimmed string is the part of the input that starts at some position `a`; everything before `a` and after the part is white space, so only surrounding white space is removed |
| Text.TrimToLowerCommute | src/services/person.service.js:8 | trimming and lower-casing commute, so `trim().toLowerCase()` equals the schema's trim-then-lowercase |
| Text.ToLowerIsLower | src/models/sentence.js:9-13 | the lower-cased copy is lower-case, and lower-casing it again changes nothing |
| Text.NormalizeIdempotent | src/models/person.js:5-11 | a normalised email is lower-case and trimmed, and normalising it again changes nothing |
| PersonModel.ParseGender | src/models/person.js:13-17 | a gender is accepted exactly when it is Male, Female or Other |
| PersonModel.ParseRole | src/models/person.js:19-23 | a missing role defaults to User; any role other than User is refused |
| PersonModel.Create | src/models/person.js:3-31 | creation succeeds exactly when the normalised email is non-empty and gender and role pass their enums; the document has the normalised email, the given id, role User, no name and `createdAt` = now; otherwise ValidationFailed |
| SentenceModel.Create | src/models/sentence.js:3-31 | creation succeeds exactly when content is present and non-empty and the status is in 0..3; the status defaults to 1, `createdBy` is kept, `contentLower` is lower-cased and `createdAt` = now |
| Query.PersonById | src/services/person.service.js:430-432 | the lookup returns a person with that id from the collection, or nothing exactly when no person has it |
| Query.PersonByEmail | src/services/person.service.js:9-10 | the lookup returns a person with exactly that email, or nothing exactly when nobody has it |
| Query.RecordingById | src/services/recording.service.js:82-83 | `findById` returns a stored recording with that id, or nothing exactly when no recording has it |
| Query.SentenceById | src/services/recording.service.js:84-85 | `findById` returns a stored sentence with that id, or nothing exactly when no sentence has it |
| Query.Where | src/services/person.service.js:86-92 | the match keeps exactly the recordings that pass the status set and the `recordedAt` window |
| Query.WhereCounts | src/services/person.service.js:86-92 | the match holds every copy of a matching recording and no copy of any other, so counting it counts exactly the matching documents |
| Query.TallyOf | src/services/person.service.js:94-100 | `$sum: 1` is the group size; approved + pending + rejected never exceed it; with only statuses 0 and 1 it is approved + pending; with only approved recordings, approved = total |
| Query.StatusCountsBounded | src/services/recording.service.js:56-60 | the three `countDocuments` by status agree with the tally and sum to at most the collection size |
| Query.SentencesWhere | src/services/person.service.js:115-118 | the sentence match keeps exactly the sentences that pass the creator filter and the status set |
| Query.SentencesWhereCounts | src/services/person.service.js:115-118 | the sentence match holds every copy of a matching sentence and no copy of any other |
| Query.SentenceTallyOf | src/services/person.service.js:456-459 | the three status counts never exceed the group size, and equal it when every status is 1, 2 or 3 |
| Query.EmailMatches | src/services/person.service.js:675-679 | exactly the persons whose email contains the needle, ignoring case |
| Query.EmailMatchesCounts | src/services/person.service.js:675-685 | the search holds every copy of a matching person and no copy of any other, so `totalCount` counts exactly the matches |
| Pipeline.SortDesc | src/services/person.service.js:136 | the sort is a permutation of its input and orders it by key, largest first |
| Pipeline.Page | src/services/person.service.js:139 | the page has `min(limit, n - skip)` elements (none past the end), and its k-th element is element `skip + k` |
| Pipeline.CeilDiv | src/services/person.service.js:204 | `Math.ceil(n / d)`: the fewest pages of `d` that hold `n` items; zero exactly when `n` is |
| Pipeline.PagesRanked | src/services/person.service.js:135-139 | on a ranked list, every row of an earlier page ranks at least as high as every row of a later page |
| Pipeline.RowOnPage | src/services/person.service.js:139 | every row of the list appears on page `k / limit + 1` at position `k % limit` |
| Pipeline.PageCount | src/services/person.service.js:204 | a page is empty exactly when its number exceeds `totalPages` |
| Pipeline.Keys | src/services/person.service.js:91-102 | the group keys are distinct, are exactly the keys that occur, and are no more than the documents |
| Pipeline.WithKey | src/services/person.service.js:94-95 | a group holds exactly the documents with its key |
| Pipeline.WithKeyCounts | src/services/person.service.js:94-95 | a group holds every copy of a document with its key and no copy of any other, so `$sum: 1` counts exactly those documents |
| Pipeline.CountKeyPositive | src/services/person.service.js:117 | a key is counted at least once exactly when it has a group |
| Pipeline.SumOfGroupCounts | src/services/person.service.js:504 | the group counts add up to the number of documents |
| Pipeline.LastByKey | src/services/person.service.js:284-287 | the lookup object holds, per key, the last document with that key (no later document has the key), and has no entry exactly when no document has the key |
| Pipeline.IndexBy | src/services/person.service.js:104-112 | the `forEach` loop builds a map whose entry for each key is the last document with that key, and which has no other keys |
| Database.PersonByOwnEmail | src/models/person.js:10 | with the unique email index, the lookup by a stored person's email finds that person |
| Database.SetRecordingStatus | src/services/recording.service.js:111-115 | `findByIdAndUpdate(id, { isApproved })` changes the status of the documents with that id and nothing else |
| Database.RecordingAfterSetStatus | src/services/recording.service.js:111-115 | after the write, the written id reads back with the new status and every other id reads back unchanged |
| Database.SentenceAfterSetStatus | src/services/recording.service.js:116-119 | after the write, the written sentence reads back with the new status and every other sentence reads back unchanged |
| Database.SetStatusKeepsValid | src/models/sentence.js:14-18 | status writes keep ids unique and every sentence status in the enum |
| Database.AddPersonKeepsValid | src/models/person.js:5-11 | inserting a valid person with a fresh id and an unused email keeps ids and emails unique |
| Database.RemovePersonKeepsValid | src/services/person.service.js:394 | deleting one person keeps the store valid and its ids bounded |
| Database.Store.constructor | src/models/person.js:3-31 | an empty store is valid |
| RecordingMapper.MapRecording | src/utils/recording.mapper.js:1-14 | the id, URL, status and time are copied; the person and sentence ids are read from the populated document or the raw reference, and are null only for a populated reference whose document is gone; email, content, sentence status and duration are null exactly when missing, empty or zero, and otherwise the populated value |
| RecordingMapper.MapPlain | src/utils/recording.mapper.js:1-14 | an unpopulated recording maps to its raw person and sentence ids with the joined fields null |
| RecordingService.RecordingsOnPage | src/services/recording.service.js:35-40 | the page holds `min(limit, n - skip)` recordings, and they are the newest-first list from position `(page - 1) * limit` on |
| RecordingService.MapPopulated | src/services/recording.service.js:35-37 | one mapped row per recording, in order, with its id; the person id and email are present exactly when the person exists (the email only when non-empty), the sentence id and content exactly when the sentence exists (the content only when non-empty), and the sentence status is always null because only `content` is selected |
| RecordingService.CountsOf | src/services/recording.service.js:56-60 | the approved, pending and rejected counts are the collection's counts per status, and their sum is at most the collection size |
| RecordingService.GetAllRecordings | src/services/recording.service.js:31-79 | the response has at most `limit` rows and `count` equals their number; row k is the recording at `skip + k` of the newest-first list; `totalCount` is the collection size; `approvedCount`, `pendingCount` and `rejectedCount` are the numbers of recordings with status 1, 0 and 2 in the whole collection, and their sum is at most `totalCount`; `totalPages` is `Math.ceil(totalCount / limit)` |
| RecordingService.ListingPagesOrdered | src/services/recording.service.js:38-40 | every recording on an earlier page was created no earlier than every recording on a later page |
| RecordingService.FindApprovedDuplicate | src/services/recording.service.js:97-102 | the duplicate query finds another sentence with status 2 whose `contentLower` equals the key, and finds none exactly when no such sentence exists |
| RecordingService.ApproveRecording | src/services/recording.service.js:82-122 | the method's new store and result are those of the approval specification |
| RecordingService.ApproveNotFound | src/services/recording.service.js:83-86 | an unknown recording or a missing sentence fails with that error and writes nothing |
| RecordingService.StatusWrites | src/services/recording.service.js:106-119 | the status writes change exactly the targeted recording and sentence and keep every other document |
| RecordingService.ApproveGuardDemotes | src/services/recording.service.js:88-92 | when the sentence already has status 2, the recording is set to 3, the sentences are untouched, and the call fails |
| RecordingService.ApproveDuplicateRejects | src/services/recording.service.js:94-109 | when another approved sentence has the same normalised content, the recording is set to 3, the sentence to 3, and the call fails |
| RecordingService.ApproveSucceeds | src/services/recording.service.js:82-122 | approval succeeds exactly when the recording and sentence exist, the sentence is not yet approved and has no approved duplicate; then the recording has status 1, the sentence status 2, and the result is the mapped recording |
| RecordingService.ApproveKeepsValid | src/services/recording.service.js:82-122 | every outcome of an approval keeps the store valid |
| RecordingService.SecondApprovalFails | src/services/recording.service.js:88-92 | after one recording of a sentence is approved, approving another recording of it fails and sets that recording to 3 |
| RecordingService.ApprovedSentenceIsDuplicate | src/services/recording.service.js:97-102 | once a sentence is approved, it is an approved duplicate for every other sentence with the same lower-case copy |
| RecordingService.SameContentSecondApprovalFails | src/services/recording.service.js:94-109 | after approving a recording of one sentence, approving a recording of another sentence with the same normalised content fails, sets the recording to 3 and the sentence to 3 |
| RecordingService.DuplicateKeyIsTrimmed | src/services/recording.service.js:96 | a duplicate is found only through a stored `contentLower` that is already trimmed and lower-case |
| RecordingService.RejectRecording | src/services/recording.service.js:125-133 | the method's new store and result are those of the rejection specification |
| RecordingService.RejectOutcome | src/services/recording.service.js:125-133 | rejection fails with RecordingNotFound, changing nothing, exactly when the id is unknown; otherwise only that recording changes, to status 2, and the result carries status 2 |
| RecordingService.NewestWithStatus | src/services/recording.service.js:142-143 | exactly the recordings with that status, newest `createdAt` first |
| RecordingService.GetRecordingsByStatus | src/services/recording.service.js:136-146 | a status outside 0..3 is refused; otherwise the rows are the recordings with that status, newest first |
| PersonRegistry.CreateGuestInStore | src/services/person.service.js:7-22 | the method's new store and result are those of `createGuest`, and the id counter advances only when a person is created |
| PersonRegistry.CreateGuestOutcome | src/services/person.service.js:7-22 | an existing normalised email returns that person with `existed` and changes nothing; otherwise exactly one person with the normalised email, role User and no name is appended; a refused document changes nothing |
| PersonRegistry.CreateGuestKeepsValid | src/services/person.service.js:16-20 | guest creation keeps emails and ids unique |
| PersonRegistry.CreateGuestIdempotent | src/services/person.service.js:8-14 | a second call with any spelling of the same email returns the same person as existing and changes nothing |
| PersonRegistry.LoginUser | src/services/person.service.js:25-31 | a missing or empty email fails with EmailRequired; otherwise the person with the normalised email, or UserNotFound when there is none |
| PersonRegistry.LoginFindsGuest | src/services/person.service.js:25-31 | logging in with the email a guest was created with finds that guest |
| PersonRegistry.ScanNames | src/services/person.service.js:371-374 | the name scan never crashes, and finds a clash exactly when another user's name equals the key once lower-cased |
| PersonRegistry.UpdateUserNameInStore | src/services/person.service.js:365-391 | corrected, see ## Findings: the method's new store and result are those of the renaming specification with the intended scan |
| PersonRegistry.UpdateUserNameOutcome | src/services/person.service.js:365-391 | corrected, see ## Findings: a missing or blank name fails; a trimmed name that equals another named user's name ignoring case fails; an unknown id fails; every failure changes nothing; on success only that person's name changes, to the trimmed name |
| PersonRegistry.NameWriteLookup | src/services/person.service.js:380-384 | after the name write, the renamed person reads back with the new name and every other person reads back unchanged |
| PersonRegistry.UpdateUserNameKeepsValid | src/services/person.service.js:380-384 | renaming keeps the store valid |
| PersonRegistry.ScanAsWrittenCrashes | src/services/person.service.js:371-374 | the scan as written throws exactly when another user without a name comes before every clashing user, and otherwise agrees with the intended scan |
| PersonRegistry.RenameBesideGuestCrashes | src/services/person.service.js:371-374 | renaming a user while a guest without a name exists throws, where the intended scan renames |
| PersonRegistry.DeleteUserInStore | src/services/person.service.js:393-401 | the method's new store and result are those of the deletion specification |
| PersonRegistry.DeleteUserOutcome | src/services/person.service.js:393-401 | deletion fails with UserNotFound, changing nothing, exactly when the id is unknown; otherwise it returns that person and removes exactly them |
| PersonRegistry.RemoveLookup | src/services/person.service.js:394 | after removal, the removed id is not found and every other id reads back unchanged |
| PersonRegistry.DeleteUserKeepsValid | src/services/person.service.js:393-401 | deletion keeps the store valid |
| PersonRegistry.ApprovePending | src/services/person.service.js:659-661 | `updateMany` sets status 1 on exactly the person's pending recordings in the window and keeps every other recording |
| PersonRegistry.ApproveRecordingsByEmailInStore | src/services/person.service.js:632-664 | the method's new store and result are those of the bulk-approval specification |
| PersonRegistry.ApproveRecordingsByEmailOutcome | src/services/person.service.js:632-664 | a missing email fails with EmailRequired; an email whose trimmed, lower-cased form no person has fails with UserNotFound; every failure changes nothing; otherwise only the selected recordings change, to status 1, none is left pending, and the result is how many there were |
| PersonRegistry.NoneLeftPending | src/services/person.service.js:642-661 | after the bulk approval, none of the person's recordings in the window is still pending |
| PersonRegistry.AnySpellingApproves | src/models/person.js:5-11 | the query value is cast through the email setters, so any spelling of a stored email, padded with white space or in another case, selects that person and approves their pending recordings |
| Aggregates.PersonTallies | src/services/person.service.js:91-102 | one group per person id that occurs, in first-occurrence order, each with the tally of exactly that person's recordings |
| Aggregates.TallyLookup | src/services/person.service.js:104-112 | reading `recordingMap[id]`, with 0 for a missing entry, gives the tally of that person's recordings |
| Aggregates.CreatorCounts | src/services/person.service.js:115-118 | one group per creator that occurs, counting exactly that creator's sentences |
| Aggregates.CreatorCountLookup | src/services/person.service.js:120-123 | reading `contributionMap[email]`, with 0 for a missing entry, gives that creator's count |
| Aggregates.CreatorTallies | src/services/person.service.js:452-461 | one group per creator, each with the status breakdown of exactly that creator's sentences |
| Aggregates.SentenceCounts | src/services/person.service.js:580-583 | one group per sentence id, counting exactly the recordings of that sentence |
| Aggregates.SentenceCountsTotal | src/services/person.service.js:504 | the per-sentence counts add up to the number of recordings |
| UserStats.DetailsOf | src/services/person.service.js:160-167 | one detail per recording, in the same order |
| UserStats.ContributionsOf | src/services/person.service.js:180-185 | one entry per sentence, with its id, status and creation time |
| UserStats.RankedUsers | src/services/person.service.js:135-136 | the ranked rows are a permutation of the per-person rows, most recordings first |
| UserStats.BuildUserRows | src/services/person.service.js:126-133 | the loop over the lookup objects builds the rows the lookup specification gives |
| UserStats.LookupRowsAreRows | src/services/person.service.js:104-133 | the rows read from the two lookup objects are the rows defined from the collections |
| UserStats.BuildEntries | src/services/person.service.js:143-198 | the loop over the page builds the entries the specification gives |
| UserStats.GetUsers | src/services/person.service.js:33-210 | the method returns the `getUsers` response the specification function defines |
| UserStats.UserRowCounts | src/services/person.service.js:84-102 | a user's recording total is approved + pending and counts exactly their recordings with status 0 or 1 in the window |
| UserStats.UsersPageSlice | src/services/person.service.js:138-139 | the page has at most `limit` users; `totalCount` is the number of persons; `totalPages` is `Math.ceil(totalCount / limit)`; user k is row `skip + k` of the ranking |
| UserStats.UsersPagesRanked | src/services/person.service.js:135-139 | users are ordered by recordings within a page and from one page to every later page |
| UserStats.EveryUserRanked | src/services/person.service.js:126-136 | every person's row appears in the ranking |
| UserStats.EntryOfRankedRow | src/services/person.service.js:146-167 | a user's listed recordings are as many as their recording total and run newest `recordedAt` first |
| UserStats.EntryMatchesRow | src/services/person.service.js:146-167 | every user on a page lists as many recordings as their total, newest first |
| UserStats.UsersTotalsIgnoreWindow | src/services/person.service.js:53-67 | the gender totals and the completed-sentence total do not depend on the date window, and the latter is the number of approved recordings |
| UserStats.UsersEmptyStore | src/services/person.service.js:69-80 | with no persons, the page is empty with zero counts and zero pages |
| UserStats.SearchRowOf | src/services/person.service.js:690-722 | a search row's recording count is approved + pending and counts exactly the person's recordings with status 0 or 1 |
| UserStats.SearchRanked | src/services/person.service.js:679-683 | the matches, newest person first |
| UserStats.SearchUserByEmail | src/services/person.service.js:667-731 | a missing or blank needle fails with EmailRequired; otherwise the page has at most `limit` rows, `totalCount` is the number of matches, `totalPages` is `Math.ceil(totalCount / limit)`, and the needle is echoed trimmed |
| UserStats.SearchListsMatches | src/services/person.service.js:675-683 | every listed user is a stored person whose email contains the needle ignoring case, newest first |
| UserStats.SearchFindsEveryMatch | src/services/person.service.js:679-685 | every match appears on page `k / limit + 1` |
| UserStats.SentencesDone | src/services/person.service.js:584-591 | one done entry per group, with the group's sentence id; its content is present exactly when a stored sentence has that id and non-empty content, and is then that content |
| UserStats.CreatedByUser | src/services/person.service.js:602-608 | the sentences whose `createdById` is the user's id or whose `createdBy` is their email, newest first |
| UserStats.ApprovedByExact | src/services/person.service.js:580-581 | the match holds exactly the user's approved recordings |
| UserStats.DoneIdsAreKeys | src/services/person.service.js:582-591 | the done sentence ids are distinct, each has a recording, and every recorded sentence is listed |
| UserStats.DoneFromApproved | src/services/person.service.js:580-593 | the done list names each sentence the user has an approved recording of exactly once, and nothing else |
| UserStats.CreatedByUserExact | src/services/person.service.js:601-608 | a sentence is listed exactly when it is stored and created by the user, by id or by email |
| UserStats.CreatedFromFilter | src/services/person.service.js:601-615 | the created list holds every sentence the user created and only those, newest first |
| UserStats.CreatedIdsDistinct | src/services/person.service.js:601-610 | with unique sentence ids, the created list names no sentence twice |
| UserStats.GetUserById | src/services/person.service.js:574-629 | a missing id fails with UserIdRequired and an unknown one with UserNotFound; otherwise the person, the done sentences (each approved sentence once, counted by `TotalSentencesDone`) and the created sentences, newest first (with unique sentence ids each named once, so `TotalContributedByUser` is the number the user created) |
| ContributorStats.SafePage | src/services/person.service.js:248 | the page is at least 1, and a page below 1 becomes 1 |
| ContributorStats.SafeLimit | src/services/person.service.js:249 | the limit is clamped to 1..100, and 0 becomes the default 10 |
| ContributorStats.CreatorPerson | src/services/person.service.js:279-287 | a creator email stands for a person with that email, and for nobody exactly when it is empty or no person has it |
| ContributorStats.CreatorPersonUnique | src/services/person.service.js:284-287 | with unique emails, the person left in the lookup object is the one lookup by email finds |
| ContributorStats.CreatorStats | src/services/person.service.js:257-265 | one row per distinct creator of the sentences with a creator |
| ContributorStats.RankedContributors | src/services/person.service.js:331-332 | the rows, as a permutation, most recordings first |
| ContributorStats.NonEmptyEmails | src/services/person.service.js:279 | `filter(Boolean)` keeps every non-empty creator email and drops the empty ones |
| ContributorStats.LastOfPersonsWithEmailIn | src/services/person.service.js:280-287 | the lookup object over the fetched persons holds, for each fetched email, the last person with it, and nothing for other emails |
| ContributorStats.PersonAtIsCreatorPerson | src/services/person.service.js:317 | `personByEmail[email] \|\| null` reads the person the creator email stands for |
| ContributorStats.ContributorFromLookupsIsRow | src/services/person.service.js:315-329 | a row built from the two lookup objects is the row of the specification |
| ContributorStats.LookupContributorsAreRows | src/services/person.service.js:315-329 | the rows built from the lookup objects are the rows of the specification |
| ContributorStats.BuildContributors | src/services/person.service.js:315-329 | the loop builds the rows the lookup specification gives |
| ContributorStats.GetTopContributors | src/services/person.service.js:247-344 | the method returns the `getTopContributors` response the specification function defines |
| ContributorStats.TopContributorsPage | src/services/person.service.js:248-343 | the page number is clamped to at least 1; the page holds at most the clamped limit (at most 100); `totalCount` is the number of distinct creators; `totalPages` is `Math.ceil(totalCount / limit)`; row k is row `skip + k` of the ranking |
| ContributorStats.CountedCreatorExists | src/services/person.service.js:252-265 | every counted creator is non-null and has a sentence |
| ContributorStats.EveryCreatorCounted | src/services/person.service.js:252-265 | every sentence's non-null creator is counted |
| ContributorStats.TopContributorsRanked | src/services/person.service.js:331-335 | contributors are ordered by recordings within a page and from one page to every later page |
| ContributorStats.ContributorMeaning | src/services/person.service.js:315-329 | a row carries the creator email and its sentence count; without a person its person fields and recording counts are empty; with one, that person has the email and the counts are their recordings and approved recordings |
| ContributorStats.UnknownCreatorHasNoRecordings | src/services/person.service.js:317-327 | a creator email no person has yields a row with no user and zero recordings |
| ContributorStats.EveryCreatorRanked | src/services/person.service.js:315-332 | every counted creator appears in the ranking |
| ContributorStats.TopCreatorTallies | src/services/person.service.js:451-466 | the groups are sorted by sentence count, each with its creator's breakdown; a positive limit bounds their number; with no positive limit they are all the groups |
| ContributorStats.RecordedSentencesOf | src/services/person.service.js:494-514 | one row per recorded sentence, with its number of recordings and approved recordings; the content is present exactly when a stored sentence has that id and non-empty content, and is then that content |
| ContributorStats.LookupSentenceCountRowsAreRows | src/services/person.service.js:470-487 | the rows built from `statsMap` are the rows of the specification |
| ContributorStats.BuildSentenceCountRows | src/services/person.service.js:484-528 | the loop over the persons builds the rows the lookup specification gives |
| ContributorStats.GetUsersBySentenceCount | src/services/person.service.js:450-531 | the method returns the `getUsersBySentenceCount` response the specification function defines |
| ContributorStats.SentenceCountRowsPerPerson | src/services/person.service.js:482-527 | one row per person, in store order, with their email, id and creation time |
| ContributorStats.StatForMeaning | src/services/person.service.js:470-487 | a person inside the kept groups gets the breakdown of exactly their sentences with status 1..3, and a person outside them gets zeros |
| ContributorStats.StatusCountsAddUp | src/services/person.service.js:452-461 | a row's three status counts add up to its total |
| ContributorStats.UnlimitedCountsEveryone | src/services/person.service.js:464-466 | with no positive limit, every person's total is their number of sentences with status 1..3 |
| ContributorStats.OutsideTopGetsZeros | src/services/person.service.js:487-493 | a person outside the kept groups gets zero counts and no recorded sentences |
| ContributorStats.RecordedSentencesMeaning | src/services/person.service.js:493-515 | `RecordingTotalCount` is the person's number of approved recordings; sentence ids are distinct; each count is the recordings of that sentence, all approved |
| ContributorStats.PageLimit | src/services/person.service.js:215 | `limit \|\| 20`: 20 for a missing or zero limit, otherwise the limit |
| ContributorStats.NewestContributed | src/services/person.service.js:228-230 | the sentences with a creator, as a permutation, newest first |
| ContributorStats.GetTotalUserContributions | src/services/person.service.js:213-244 | the count of sentences with a creator, always; with `includeSentences`, also a page of at most `pageLimit` of them, taken from the newest-first list at `skip`, and `totalPages` is `Math.ceil(total / pageLimit)` |
| ContributorStats.ContributionListingHasCreators | src/services/person.service.js:228 | every listed sentence has a creator |
| ContributorStats.ContributionListingOrdered | src/services/person.service.js:230-232 | the listing runs newest first within a page and from one page to every later page |
| RecordingRanks.MatchedOfPerson | src/services/person.service.js:405-413 | a person's group holds exactly their recordings of the optional status |
| RecordingRanks.TopIsTop | src/services/person.service.js:426-427 | a group left out by `$sort` then `$limit` ranks no higher than any kept group |
| RecordingRanks.TopTallies | src/services/person.service.js:409-428 | at most `limit` groups, most recordings first |
| RecordingRanks.UsersByRecordingCount | src/services/person.service.js:404-446 | one row per kept group, in order, each with the person found by id |
| RecordingRanks.RecordingCountRanked | src/services/person.service.js:412-428 | at most `limit` rows, most recordings first, and the three status counts never exceed the total |
| RecordingRanks.TopTallyIsGroup | src/services/person.service.js:409-425 | every kept group carries the tally of exactly its person's matched recordings |
| RecordingRanks.RecordingCountRowMeaning | src/services/person.service.js:429-442 | a row counts exactly its person's recordings of the status; its user is that person, and is missing exactly when no person has the id |
| RecordingRanks.RecordingCountTopIsTop | src/services/person.service.js:426-427 | a person left out has no more recordings of the status than anyone listed |
| RecordingRanks.UniqueCounts | src/services/person.service.js:541-553 | one row per person, with distinct ids, each counting that person's distinct (person, sentence) pairs |
| RecordingRanks.PairsOfPerson | src/services/person.service.js:543-553 | a person's number of pairs is their number of distinct sentences |
| RecordingRanks.PairSeenIffSentenceSeen | src/services/person.service.js:545 | a pair has been seen exactly when the person's sentence has been seen |
| RecordingRanks.TopUniqueCounts | src/services/person.service.js:554-555 | at most `limit` rows, most distinct sentences first |
| RecordingRanks.UsersByUniqueSentenceCount | src/services/person.service.js:534-571 | one row per kept group, in order, each with the person found by id |
| RecordingRanks.UniqueSentenceRanked | src/services/person.service.js:548-555 | at most `limit` rows, most distinct sentences first, no user twice |
| RecordingRanks.DistinctAfterSort | src/services/person.service.js:554 | sorting keeps the user ids distinct |
| RecordingRanks.UniqueSentenceRowMeaning | src/services/person.service.js:541-567 | a row's count is the number of distinct sentences among its user's recordings of the status, and so at most their number of such recordings |
| RecordingRanks.UniqueSentenceTopIsTop | src/services/person.service.js:554-555 | a person left out has recorded no more distinct sentences than anyone listed |

## Left out

- File upload (`uploadWavAudio`, Cloudinary, the local file system), the HTTP controllers, routes and middleware, and `loginAdmin` (environment credentials, bcrypt). They are I/O or foreign calls.
- The recording schema file (`models/recording`) is not part of this model. Its fields are taken from how the two services use it: `personId`, `sentenceId`, `audioUrl`, `isApproved` 0..3, `duration`, `recordedAt`, `createdAt`.
- `toPublicUser` (`utils/person.mapper`) is not part of this model. A user row carries the whole `Person` instead.
- The hour fields (`totalDurationHours`, `approvedDurationHours`) are left out, since they are floating-point divisions by 3600. Durations are integers.
- Dates are integer timestamps. Parsing `new Date(fromDate)` and invalid dates are left out.
- `ToLower` folds ASCII letters only. The search's `$regex` with option `i` is a case-insensitive substring match; regex metacharacters in the needle are not interpreted.
- `Number(...)` coercion is not modelled. The model takes `page`, `limit` and `statusFilter` as integers, so NaN, numeric strings and fractions are out of scope.
- UserStats.GetUsers, RecordingService.GetAllRecordings and UserStats.SearchUserByEmail require `limit >= 1` and `page >= 1`. The controllers guarantee `page >= 1` and replace a zero limit with the default. They let a negative limit through, where Mongo's negative limit and `slice` with a negative end behave differently; that case is not modelled.
- RecordingRanks.UsersByRecordingCount and RecordingRanks.UsersByUniqueSentenceCount require `limit >= 1`, because Mongo refuses a `$limit` stage that is not positive.
- Concurrency: each service call is one atomic step on the store. The interleavings of the source's separate awaits (for example, a write between `findById` and `findByIdAndUpdate`) are not modelled.
- Order among equal keys: the model's sorts are stable and its groups come out in order of first occurrence. Mongo fixes neither, so every ordering property is stated by key only.
- The `$in` restrictions of `getUsers` (`personId` in all users, `createdBy` in all emails) and of `getTopContributors` (`personId` in the fetched persons) are not modelled. The statistics are read only for those keys, so the rows are the same.
- ContributorStats.RecordedSentencesOf reads sentence content by id through `SentenceById` rather than through a lookup object built from `$in`. Ids are unique, so the two agree.
- The schemas declare neither a `name` on persons nor a `createdById` on sentences. The services still read and write them. The model treats both as stored optional fields. Under Mongoose's default strict mode, the name write of `updateUserName` would be dropped. A document also has no accessor for a path outside its schema, so `user.name` would read undefined for every fetched person, named or not. In that reading the scan of `updateUserName` throws as soon as any other person exists, which widens the crash described under "## Findings". The model keeps `name` as a field and does not capture this wider crash.
- The store methods require only the unique-id indexes (`Store.Indexed`). The full validity of the store is proved on the specification functions by the `*KeepsValid` lemmas, not restated on each method.
- The sorts build new sequences (`SortDesc`); the source sorts in place, and that aliasing is not observable here.
- PersonRegistry.ApproveRecordingsByEmailInStore returns the number of approved recordings, standing for the `updateMany` result object (`modifiedCount`). The other fields of that object are left out.
- RecordingService.ApproveRecording returns the recording mapped without population (`findByIdAndUpdate` does not populate), as the source does; joined fields are null.

## Findings

| source | as written | input that shows it | evidently intended | confidence | as-written member | corrected member |
|---|---|---|---|---|---|---|
| src/services/person.service.js:371-374 | `allUsers.find(user => user.name.toLowerCase() === ...)` reads `name` on every other user. Guests created by `createGuest` have no `name`, so the read throws a TypeError before a clash can be found. | a store with a named user 1 and a guest 2 without a name; renaming user 1 to "bo" | users without a name cannot clash and are passed over; the rename succeeds | high for the crash on the stored data shown; not executed | PersonRegistry.RenameBesideGuestCrashes | PersonRegistry.ScanNames |
