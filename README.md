# Engagement core in Dafny

The engagement app is a single-page React application. Employees send two kinds of feedback to each other:

- constructive feedback, tagged `consider`;
- appreciation, tagged `continue`.

Managers and admins look at statistics computed from that feedback. Its state lives in three providers.

- **FeedbackContext** holds the append-only log of feedback items. An item's message is classified by a keyword sentiment rule when the item is recorded. Four queries recompute statistics from the whole log: a user's given and received items, a user's statistics, a team's statistics and the organisation's statistics.
- **UsersContext** holds the user directory. Users can be added (a missing avatar URL is generated), deleted (the last admin cannot be deleted) and looked up by id.
- **AuthContext** holds the signed-in user. Login is by e-mail alone. Sign-up refuses an e-mail that is already registered and adds the new user to the directory. Logout clears the session.

The Dafny modules follow that structure:

- `Js` (js.dfy) covers the parts of the JavaScript runtime the code depends on: `filter`, `find`, `split(' ')`, `toLowerCase`, and `Math.round`/`Math.min` applied to a ratio of naturals.
- `Types` (types.dfy) holds the records.
- `SentimentAnalysis` (sentiment.dfy) is the keyword classifier.
- `FeedbackContext` (feedback.dfy) has the `FeedbackStore` class and the four queries.
- `UsersContext` (users.dfy) has the `UserDirectory` class.
- `AuthContext` (auth.dfy) has the `AuthSession` class.

State that the providers update in place is a class field. Queries and helpers are functions. The loops of `getTeamStats` and `getOrganizationStats` are methods with loop invariants. Each of those methods is proved equal to a specification function, and lemmas about those functions state what the statistics mean.

In several places the code does not do what its own type declarations in src/types/index.ts suggest. The model follows the code:

- **Type tags.** Items carry the tags `consider` or `continue`. The aggregators count the tags `feedback` and `appreciation`, which no item carries. As a result:
  - user statistics are always zero;
  - team totals are zero;
  - every organisation item falls into the "appreciations" branch of the department distribution.

  The lemmas `UserStatsOfWellTypedLog`, `TeamStatsOfWellTypedLog`, `OrganizationStatsOfWellTypedLog` and `OneConsiderItemScoresNothing` prove this. The declared item type is `type: 'consider' | 'continue'` (src/types/index.ts:38), and the declared `UserStats` record counts `considerGiven`, `considerReceived`, `continueGiven` and `continueReceived` (src/types/index.ts:47-53). Both point to counts of those two tags.
- **Field names.** The returned field names are `feedbackGiven`, `feedbackReceived`, `appreciationsGiven` and `appreciationsReceived`. They are not the `considerGiven`… names of the `UserStats` type (src/types/index.ts:47-53).
- **Empty team.** The team engagement score of a manager with no team items is NaN (0 / 0). It is not 0.
- **Two-word keyword.** `needs improvement` is on the negative list but can never match, because the message is split on spaces.
- **Duplicate ids.** The last-admin guard looks only at the first user with the id, while the deletion removes every user with it. When ids are not distinct, the only admin can be deleted (`DuplicateIdRemovesLastAdmin`).

## Model

| member | source | states |
|---|---|---|
| Js.Filter | src/contexts/FeedbackContext.tsx:83-84 | the result is no longer than the input (its elements are stated by FilterMembers, its order by FilterConcat) |
| Js.FilterMembers | src/contexts/FeedbackContext.tsx:83-84 | the result holds exactly the elements of the input that pass the predicate |
| Js.FilterConcat | src/contexts/FeedbackContext.tsx:83 | filtering distributes over concatenation, so the result keeps the input's order |
| Js.FilterSnoc | src/contexts/FeedbackContext.tsx:75 | appending an element extends the filter by that element exactly when it passes |
| Js.FilterCongruent | src/contexts/FeedbackContext.tsx:49-50 | predicates that agree on every element give the same filter |
| Js.FilterAll | src/contexts/UsersContext.tsx:87 | a filter that every element passes returns the whole sequence |
| Js.FilterRemoveAt | src/contexts/UsersContext.tsx:87 | a filter that rejects only the element at index i removes just that element |
| Js.FilterNone | src/contexts/FeedbackContext.tsx:91-94 | a filter that no element passes is empty |
| Js.DisjointCounts | src/contexts/FeedbackContext.tsx:91-94 | two mutually exclusive predicates count at most the length between them |
| Js.Count | src/contexts/FeedbackContext.tsx:91-94 | `filter(...).length` is at most the length of the list; its growth is stated by FilterSnoc and FilterConcat |
| Js.Find | src/contexts/UsersContext.tsx:95 | None exactly when no element passes; otherwise the result is the first element that passes |
| Js.LowerChar | src/contexts/FeedbackContext.tsx:48 | the per-character `toLowerCase` on ASCII: no upper-case letter is left, a character is a lower-case letter afterwards exactly when it was a letter before, and every non-upper-case character is kept |
| Js.ToLowerCase | src/contexts/FeedbackContext.tsx:48 | lowercasing keeps the length, maps each character by ASCII lowercasing, and keeps spaces where they were |
| Js.Split | src/contexts/FeedbackContext.tsx:48 | a split has at least one piece, and no piece contains the separator |
| Js.JoinSplit | src/contexts/FeedbackContext.tsx:48 | joining the pieces of a split gives back the string |
| Js.SplitJoin | src/contexts/FeedbackContext.tsx:48 | splitting a join of separator-free pieces gives back the pieces |
| Js.RoundHalfUp | src/contexts/FeedbackContext.tsx:99-102 | Math.round(n/d): the result r satisfies r - 1/2 <= n/d < r + 1/2 |
| Js.RoundHalfUpAtMost | src/contexts/FeedbackContext.tsx:138 | a ratio of at most k rounds to at most k |
| Js.Min | src/contexts/FeedbackContext.tsx:97-103 | Math.min of two numbers is at most both and equals one of them |
| SentimentAnalysis.Words | src/contexts/FeedbackContext.tsx:48 | a message has at least one word, and no word contains a space |
| SentimentAnalysis.InList | src/contexts/FeedbackContext.tsx:49-50 | `word => list.includes(word)` holds of a word exactly when the word is on the list |
| SentimentAnalysis.Hits | src/contexts/FeedbackContext.tsx:49-50 | the number of words on a keyword list is at most the number of words; the classification rule over it is stated by Classify |
| SentimentAnalysis.Classify | src/contexts/FeedbackContext.tsx:52-54 | positive iff more positive hits, negative iff more negative hits, neutral iff the counts are equal |
| SentimentAnalysis.AnalyzeSentiment | src/contexts/FeedbackContext.tsx:44-55 | the same three-way rule over the word counts of the two keyword lists |
| SentimentAnalysis.NeedsImprovementNeverCounts | src/contexts/FeedbackContext.tsx:46-50 | the two-word entry never matches; the verdict equals the verdict without it |
| SentimentAnalysis.NoKeywordsIsNeutral | src/contexts/FeedbackContext.tsx:49-54 | a message with no keyword is neutral |
| SentimentAnalysis.ListsDisjoint | src/contexts/FeedbackContext.tsx:45-46 | no word is on both keyword lists |
| SentimentAnalysis.EmptyMessageIsNeutral | src/contexts/FeedbackContext.tsx:48-54 | the empty message is neutral |
| SentimentAnalysis.OnlyPositiveWordsIsPositive | src/contexts/FeedbackContext.tsx:49-52 | a message made only of positive keywords is positive |
| SentimentAnalysis.OnlyNegativeWordsIsNegative | src/contexts/FeedbackContext.tsx:49-53 | a message made only of negative keywords is negative |
| SentimentAnalysis.TerribleExperienceWords | src/contexts/FeedbackContext.tsx:48 | "This was a terrible experience" splits into its five lowercase words |
| SentimentAnalysis.LowerTerribleExperience | src/contexts/FeedbackContext.tsx:48 | lowercasing that message lowercases only its first letter |
| SentimentAnalysis.JoinTerribleExperience | src/contexts/FeedbackContext.tsx:48 | the five words joined by spaces are the lowercased message |
| SentimentAnalysis.TerribleExperienceHits | src/contexts/FeedbackContext.tsx:49 | none of the five words is positive |
| SentimentAnalysis.TerribleExperienceNegativeHits | src/contexts/FeedbackContext.tsx:50 | exactly one of the five words is negative |
| SentimentAnalysis.NegativeHitsHead | src/contexts/FeedbackContext.tsx:50 | "this", "was", "a" are not negative |
| SentimentAnalysis.NegativeHitsTail | src/contexts/FeedbackContext.tsx:50 | of "terrible", "experience" one is negative |
| SentimentAnalysis.TerribleExperienceIsNegative | src/contexts/FeedbackContext.tsx:44-55 | that message is classed negative |
| FeedbackContext.FeedbackStore.constructor | src/contexts/FeedbackContext.tsx:59-62 | the log is the stored one, or empty when nothing is stored |
| FeedbackContext.FeedbackStore.AddFeedback | src/contexts/FeedbackContext.tsx:65-79 | grows the log by one item, leaves earlier items untouched, and appends the draft with the given id and timestamp and the sentiment of its message; the classified-log invariant is kept |
| FeedbackContext.TagCountsDisjoint | src/contexts/FeedbackContext.tsx:91-94 | the 'feedback' and 'appreciation' counts of a list add up to at most its length |
| FeedbackContext.WellTypedTagCountsZero | src/contexts/FeedbackContext.tsx:91-94 | over items tagged 'consider' or 'continue', both counts are zero |
| FeedbackContext.GetUserFeedbacks | src/contexts/FeedbackContext.tsx:82-86 | `given` is exactly the items the user sent, `received` exactly the items the user received |
| FeedbackContext.UserFeedbacksAppend | src/contexts/FeedbackContext.tsx:74-86 | appending an item adds it at the end of `given` iff the user sent it, and at the end of `received` iff the user received it |
| FeedbackContext.UserFeedbacksAppendSent | src/contexts/FeedbackContext.tsx:83 | appending items the user sent extends `given` by exactly those items |
| FeedbackContext.StatsOf | src/contexts/FeedbackContext.tsx:97-111 | the engagement score never exceeds 100 |
| FeedbackContext.GetUserStats | src/contexts/FeedbackContext.tsx:89-112 | the given counts sum to at most the items given, the received counts to at most the items received, and the score is at most 100 |
| FeedbackContext.UserEngagementScore | src/contexts/FeedbackContext.tsx:97-103 | the score is (activity + 1) div 2, and 100 from an activity of 199 on, where activity = 10 per item given + 5 per item received |
| FeedbackContext.UserStatsIgnoreOtherTags | src/contexts/FeedbackContext.tsx:91-94 | adding an item tagged neither 'feedback' nor 'appreciation' changes no user's statistics |
| FeedbackContext.UserStatsAppend | src/contexts/FeedbackContext.tsx:90-94 | appending an item raises feedbackGiven by one iff the user sent it and it is tagged 'feedback', and likewise feedbackReceived for received items and the two appreciation counts for 'appreciation'; every other count is unchanged |
| FeedbackContext.UserStatsOfWellTypedLog | src/contexts/FeedbackContext.tsx:91-103 | over a log of 'consider'/'continue' items, a user's statistics are all zero |
| FeedbackContext.OneConsiderItemScoresNothing | src/contexts/FeedbackContext.tsx:44-112 | one 'consider' item "This was a terrible experience" is classed negative and leaves its sender with all-zero statistics |
| FeedbackContext.TeamFeedbacks | src/contexts/FeedbackContext.tsx:116-118 | the team's items are exactly the items the manager sent or received |
| FeedbackContext.EnsureMember | src/contexts/FeedbackContext.tsx:126-131 | adds the id as a key with zero counts when it is absent, and leaves every existing entry as it was |
| FeedbackContext.Tally | src/contexts/FeedbackContext.tsx:126-133 | one item adds its sender and recipient to the member keys and nothing else |
| FeedbackContext.MemberStatsAfter | src/contexts/FeedbackContext.tsx:124-134 | the forEach fold is empty exactly when there are no items; its keys, counts and sums are stated by MemberStatsKeys, MemberStatsCounts and MemberStatsSums |
| FeedbackContext.TeamEngagement | src/contexts/FeedbackContext.tsx:136-139 | NaN exactly when there are no members and no counted items; otherwise at most 100 |
| FeedbackContext.TeamStatsOf | src/contexts/FeedbackContext.tsx:115-147 | the value getTeamStats returns; a finite score is at most 100, and its members, totals and NaN case are stated by TeamMembers and TeamTotals |
| FeedbackContext.GetTeamStats | src/contexts/FeedbackContext.tsx:115-147 | returns the team totals, the engagement score and the member map of the specification function |
| FeedbackContext.CountMembers | src/contexts/FeedbackContext.tsx:124-134 | the loop builds the member map of the specification fold |
| FeedbackContext.CountItem | src/contexts/FeedbackContext.tsx:125-134 | one run of the forEach callback performs exactly the specified step for one item |
| FeedbackContext.MemberStatsKeys | src/contexts/FeedbackContext.tsx:125-131 | the member keys are exactly the senders and recipients of the items |
| FeedbackContext.ParticipantsSnoc | src/contexts/FeedbackContext.tsx:126-131 | one more item adds its sender and recipient to the participants |
| FeedbackContext.MemberStatsCounts | src/contexts/FeedbackContext.tsx:132-133 | each member's `given` and `received` are the number of items they sent and received |
| FeedbackContext.SumOfRemove | src/contexts/FeedbackContext.tsx:124-134 | the sum over a map is one entry plus the sum over the rest |
| FeedbackContext.SumOfUpdate | src/contexts/FeedbackContext.tsx:132-133 | updating an entry changes the sum by the difference |
| FeedbackContext.EnsureMemberSums | src/contexts/FeedbackContext.tsx:126-131 | a fresh zero entry leaves the sums of `given` and `received` unchanged |
| FeedbackContext.TallySums | src/contexts/FeedbackContext.tsx:126-133 | one item raises the sum of `given` by one and the sum of `received` by one |
| FeedbackContext.MemberStatsSums | src/contexts/FeedbackContext.tsx:124-134 | the sums of `given` and of `received` over the members both equal the number of items |
| FeedbackContext.TeamMembers | src/contexts/FeedbackContext.tsx:115-134 | the members are the participants; the manager is a member iff the team has items; each member's counts; both sums equal the team's item count |
| FeedbackContext.TeamTotals | src/contexts/FeedbackContext.tsx:120-139 | the totals sum to at most the team's items; the score is NaN iff the team has no items, otherwise at most 100 |
| FeedbackContext.NonEmptyTeamHasMembers | src/contexts/FeedbackContext.tsx:125-138 | a non-empty team scope gives at least one member key, so the division is by a positive count |
| FeedbackContext.NothingScoresZero | src/contexts/FeedbackContext.tsx:136-139 | with members but nothing counted, the team scores 0 |
| FeedbackContext.TeamStatsOfWellTypedLog | src/contexts/FeedbackContext.tsx:120-139 | over 'consider'/'continue' items the totals are zero, and a team with items scores 0 |
| FeedbackContext.Assign | src/contexts/FeedbackContext.tsx:167-175 | assigning an item to a department keeps the four department keys |
| FeedbackContext.Distribute | src/contexts/FeedbackContext.tsx:154-175 | the distribution keeps exactly the four department keys |
| FeedbackContext.DepartmentEngagement | src/contexts/FeedbackContext.tsx:178-185 | a department scores (f + 2a + 1) div 2, with f feedbacks and a appreciations, and 100 once f + 2a reaches 199 |
| FeedbackContext.WithEngagement | src/contexts/FeedbackContext.tsx:178-185 | the second forEach keeps the keys and each department's two counts, and puts every engagement at most 100 |
| FeedbackContext.DepartmentSum | src/contexts/FeedbackContext.tsx:188-191 | the `reduce` over the four departments' values is at least each department's own value; applied to the engagements it gives the numerator of averageEngagement |
| FeedbackContext.OrganizationStatsOf | src/contexts/FeedbackContext.tsx:150-199 | the value getOrganizationStats returns for the given draws has the four department keys; its sums, totals and average are stated by OrganizationTotals |
| FeedbackContext.GetOrganizationStats | src/contexts/FeedbackContext.tsx:150-199 | returns the totals, the departments and the average of the specification function for the given department draws |
| FeedbackContext.DistributeItems | src/contexts/FeedbackContext.tsx:167-175 | the loop builds the distribution of the specification fold |
| FeedbackContext.ScoreDepartments | src/contexts/FeedbackContext.tsx:178-185 | the loop sets each department's engagement as specified and changes no count |
| FeedbackContext.ScoredDepartments | src/contexts/FeedbackContext.tsx:178-191 | scoring keeps the four keys and the counts; every engagement is at most 100 and their sum at most 400 |
| FeedbackContext.AssignSums | src/contexts/FeedbackContext.tsx:170-174 | one item raises the summed department feedbacks by one when it is tagged 'feedback', and the summed appreciations by one otherwise |
| FeedbackContext.DistributeConserves | src/contexts/FeedbackContext.tsx:167-175 | summed department feedbacks equal the 'feedback' items; summed appreciations equal all other items |
| FeedbackContext.OrganizationTotals | src/contexts/FeedbackContext.tsx:150-199 | four departments; their counts sum to the log length; the feedback sum equals totalFeedbacks; every engagement and the average are at most 100 |
| FeedbackContext.OrganizationStatsOfWellTypedLog | src/contexts/FeedbackContext.tsx:151-175 | over 'consider'/'continue' items both totals are zero, while the departments count every item as an appreciation |
| UsersContext.InitialUsersWellFormed | src/contexts/UsersContext.tsx:24-54 | the seeded users have distinct ids and exactly one admin |
| UsersContext.InitialUsers | src/contexts/UsersContext.tsx:24-54 | four seeded users, each with the avatar URL generated from their name; distinct ids and a single admin are stated by InitialUsersWellFormed |
| UsersContext.AdminCount | src/contexts/UsersContext.tsx:81 | `filter(u => u.role === 'admin').length` is at most the number of users, and is zero exactly when no user is an admin |
| UsersContext.WithAvatar | src/contexts/UsersContext.tsx:66-69 | only the avatar URL may change; a non-empty URL is kept; a missing or empty one is replaced by the generated URL |
| UsersContext.DeleteFrom | src/contexts/UsersContext.tsx:78-90 | deletion never adds a user and never lengthens the list |
| UsersContext.DeleteRefusesLastAdmin | src/contexts/UsersContext.tsx:79-85 | when the first user with the id is the only admin, the list is unchanged |
| UsersContext.DeleteRemovesExactly | src/contexts/UsersContext.tsx:87 | otherwise exactly the users with the id are removed, the others kept in order |
| UsersContext.RemovedCount | src/contexts/UsersContext.tsx:87 | users with the id and users without it together make up the list |
| UsersContext.DeleteUnknownId | src/contexts/UsersContext.tsx:79-87 | deleting an id nobody has leaves the list unchanged |
| UsersContext.DeleteNonAdmin | src/contexts/UsersContext.tsx:79-87 | when the first user with the id is not an admin, nobody with that id remains and the list shrinks |
| UsersContext.RemoveUnique | src/contexts/UsersContext.tsx:87 | with distinct ids, removing a user's id removes just that entry |
| UsersContext.RemoveAtKeepsUnique | src/contexts/UsersContext.tsx:87 | removing one entry from a list with distinct ids keeps them distinct |
| UsersContext.DeleteKeepsAnAdmin | src/contexts/UsersContext.tsx:78-90 | with distinct ids, a list with an admin keeps an admin after any deletion |
| UsersContext.DeleteKeepsIdsUnique | src/contexts/UsersContext.tsx:78-90 | deletion keeps ids distinct |
| UsersContext.DuplicateIdRemovesLastAdmin | src/contexts/UsersContext.tsx:79-87 | with a duplicated id the only admin is deleted, leaving no admin |
| UsersContext.UserDirectory.constructor | src/contexts/UsersContext.tsx:58-61 | the stored list when one is stored (even an empty one), otherwise the seeded users |
| UsersContext.UserDirectory.AddUser | src/contexts/UsersContext.tsx:64-74 | appends the user with its avatar filled in; earlier users unchanged |
| UsersContext.UserDirectory.DeleteUser | src/contexts/UsersContext.tsx:77-91 | the new list is the deletion of the old; with distinct ids an admin survives and ids stay distinct |
| UsersContext.UserDirectory.GetUser | src/contexts/UsersContext.tsx:94-96 | None iff no user has the id; otherwise the first user with it |
| UsersContext.UserDirectory.GetAllUsers | src/contexts/UsersContext.tsx:99-101 | the directory's list itself |
| AuthContext.NewUser | src/contexts/AuthContext.tsx:46-50 | the new user has the given id and the e-mail argument, and every other field from the form |
| AuthContext.SignupKeepsEmailsUnique | src/contexts/AuthContext.tsx:40-53 | adding a user whose e-mail is not yet present keeps e-mails distinct |
| AuthContext.AuthSession.constructor | src/contexts/AuthContext.tsx:19-23 | the stored current user, or nobody |
| AuthContext.AuthSession.IsAuthenticated | src/contexts/AuthContext.tsx:70 | true iff someone is signed in |
| AuthContext.AuthSession.Login | src/contexts/AuthContext.tsx:28-36 | the first user with the e-mail becomes the current user; with none, rejected with "Invalid credentials" and the session unchanged |
| AuthContext.AuthSession.Signup | src/contexts/AuthContext.tsx:39-56 | a registered e-mail is rejected with "Email already exists" and nothing changes; otherwise the new user (avatar filled in) is appended to the directory and becomes the current user; distinct e-mails stay distinct |
| AuthContext.AuthSession.Logout | src/contexts/AuthContext.tsx:59-62 | nobody is signed in afterwards |

## Left out

- Persistence: the providers read from and write to `localStorage` through JSON. The model starts from an optional stored value and does not model the writes; a stored value that does not parse is not modelled.
- Clocks: `Date.now()` ids (`feedback-…`, `user-…`) and the ISO timestamp are parameters of `AddFeedback` and `Signup`. Nothing is claimed about their uniqueness.
- Randomness: `Math.random()` in the department distribution becomes a sequence of department indices, one per item.
- Avatar URL: the DiceBear URL and `encodeURIComponent` become the directory's `avatarFor` function.
- React plumbing: `useState` updater functions, `useCallback`/`useMemo` memoisation, the provider components, the `use…` hooks and their "must be used within a provider" errors, and `toast` notifications.
- Asynchrony: the `async` login and sign-up become methods returning an `Outcome`. A thrown error is a rejected outcome.
- Signup's snapshot: sign-up checks the `users` of its closure while `addUser` appends to the latest list. The model has one directory, so the two are the same list.
- Numbers: JavaScript floating point is not modelled. All ratios here are of small naturals, and `RoundHalfUp` computes `Math.round` on them exactly. Counts are unbounded naturals.
- Case mapping: `Js.ToLowerCase` lowers ASCII letters only; the Unicode case mapping of `toLowerCase` is not modelled.
- Object keys: `memberStats` is a JavaScript object. A key that names an inherited property (such as `constructor`) makes `!memberStats[id]` false, and the model does not reproduce that; it uses a map.
- Pages and components: the pages and components (dashboards, analytics, forms, user management, date bucketing of activity) are not part of this model.
- FeedbackContext.GetUserStats: its own contract only bounds the counts and the score. `UserStatsAppend` states how each count changes when an item is appended, `UserEngagementScore` states the score as a function of the counts, and `UserStatsOfWellTypedLog` states the result for a log of 'consider'/'continue' items.
