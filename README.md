# Bluesky community verifications — trusted users and verification lookup

The userscript `bluesky-community-verifications.user.js` shows a badge on a Bluesky profile page
when someone the reader trusts has published an `app.bsky.graph.verification` record about that
profile. This project models the logic behind the badge and proves properties of it:

- **the trusted-user store** (`trust_list.dfy`, module `TrustList`). This is the ordered list of
  handles kept as JSON under the `bsky_trusted_users` local-storage key, with its read, write, add
  and remove operations. The class `TrustedUserStore` holds the stored value. The pure functions
  `Added` and `Without` say what adding and removing make of the list.
- **the verification aggregation** (`verification.dfy`, module `Verification`). This is
  `checkTrustedUserVerifications` for a target DID.
  - Each trusted user's `listRecords` response, or the error its fetch threw, is an input.
  - The class `VerificationChecker` holds the module-level `profileVerifiers` list and fills it
    record by record, as the script's loop does.
  - A user is pushed once for every record whose `value.subject` is the target. That means a user
    with two matching records appears twice.
  - The method returns `true` exactly when someone was pushed, together with one outcome object per
    trusted user.
- **identifier extraction** (`profile_ids.dfy`, module `ProfileIds`). The handle comes from the page
  URL (`url.split("/profile/")[1].split("/")[0]`). The DID comes from a record URI
  (`uri.split("/")[2]`).
- **the badge tooltip** (`badge.dfy`, module `Badge`). It reads "Verified by: a, b" for several
  verifiers and "Verified by a" for one.
- **JavaScript string operations** (`js_strings.dfy`, module `JsStrings`). The model defines
  `indexOf`, `includes`, `split` with a non-empty separator, and `join`. Joining the pieces of a
  split always restores the string. Splitting a join restores the pieces when no piece holds the
  separator's first character (`JoinSplit` and `SplitJoin`). The tooltip proof uses `SplitJoin`.
  The extraction proofs use `SplitAtFirst`, `SplitAfterClearPrefix`, `SplitHeadExact` and
  `SplitWhole`.

`options.dfy` holds the `Option` type. `None` stands for JavaScript's `undefined`: an absent field,
or an array index past the end.

The DID given to the aggregation is an `Option<string>`. `uri.split("/")[2]` is `undefined` when the
URI has fewer than three fields, and `record.value.subject === undefined` then holds for a record
whose value has no subject. The model keeps that behaviour.

The script keeps no cache of the users' records. It fetches one page of records per user, without
a cursor, and pushes a user once per matching record. The model does the same.

## Model

| member | source | states |
|---|---|---|
| TrustList.TrustedUserStore.constructor | bluesky-community-verifications.user.js:12-17 | a fresh store has nothing under the key |
| TrustList.TrustedUserStore.GetTrustedUsers | bluesky-community-verifications.user.js:15-18 | returns the empty list while nothing is stored, and the stored list otherwise |
| TrustList.TrustedUserStore.SaveTrustedUsers | bluesky-community-verifications.user.js:21-23 | the list is stored, and it is exactly what the next read returns |
| TrustList.TrustedUserStore.AddTrustedUser | bluesky-community-verifications.user.js:26-32 | a handle already listed leaves the stored value untouched (nothing is written); otherwise the old list with the handle appended is stored |
| TrustList.TrustedUserStore.RemoveTrustedUser | bluesky-community-verifications.user.js:35-39 | the filtered list is always written back, and the handle is no longer listed |
| TrustList.Added | bluesky-community-verifications.user.js:27-30 | the handle is present afterwards, every earlier entry keeps its index, and the list grows by one exactly when the handle was absent |
| TrustList.Without | bluesky-community-verifications.user.js:37 | the filter leaves no entry equal to the handle and never lengthens the list |
| TrustList.WithoutKeepsOthers | bluesky-community-verifications.user.js:37 | every other handle occurs after the filter exactly as many times as before |
| TrustList.WithoutConcat | bluesky-community-verifications.user.js:37 | the filter distributes over concatenation, so the kept entries keep their relative order |
| TrustList.WithoutAbsent | bluesky-community-verifications.user.js:35-38 | removing a handle that is not listed leaves the list unchanged |
| TrustList.WithoutSubset | bluesky-community-verifications.user.js:37 | the filtered list holds only handles of the original |
| TrustList.AddedKeepsNoDuplicates | bluesky-community-verifications.user.js:28-30 | adding to a duplicate-free list keeps it duplicate-free |
| TrustList.WithoutKeepsNoDuplicates | bluesky-community-verifications.user.js:37 | removing from a duplicate-free list keeps it duplicate-free |
| TrustList.WithoutAdded | bluesky-community-verifications.user.js:26-38 | removing a handle after adding it gives the same list as removing it alone |
| Verification.IsVerificationOf | bluesky-community-verifications.user.js:69 | a record without a `value` never matches; a record with one matches exactly when its `subject` equals the target, an absent subject matching an undefined target |
| Verification.PushCount | bluesky-community-verifications.user.js:67-77 | a failed fetch, or a response without `records`, pushes the user zero times; otherwise at most once per record |
| Verification.OutcomeOf | bluesky-community-verifications.user.js:79-85 | the outcome names the user, `success` holds exactly when the fetch succeeded, and a failure carries the thrown error |
| Verification.VerifiersBefore | bluesky-community-verifications.user.js:47-90 | processing no users leaves `profileVerifiers` empty |
| Verification.Verifiers | bluesky-community-verifications.user.js:47-90 | `profileVerifiers` after every callback holds only trusted users |
| Verification.VerifiersFromUsers | bluesky-community-verifications.user.js:59-87 | the first n users' pushes hold only those users |
| Verification.MatchesBefore | bluesky-community-verifications.user.js:68-77 | the number of matching records among the first n is at most n |
| Verification.MatchesBeforePositive | bluesky-community-verifications.user.js:68-77 | some of the first n records count exactly when one of them has `value.subject` equal to the target |
| Verification.PushCountPositive | bluesky-community-verifications.user.js:67-78 | a user is pushed at all exactly when their fetch succeeded with a `records` array holding a record naming the target |
| Verification.RepeatMembers | bluesky-community-verifications.user.js:75 | n pushes of a user put that user in the list n times and nothing else |
| Verification.Outcomes | bluesky-community-verifications.user.js:79-90 | one outcome per trusted user, in list order, naming that user; `success` holds and no error is attached exactly when the fetch succeeded |
| Verification.VerifiersBeforeExtend | bluesky-community-verifications.user.js:59-90 | users processed later do not change what earlier users pushed |
| Verification.VerifiersBeforeConcat | bluesky-community-verifications.user.js:59-90 | processing one block of users and then part of a second appends the second part's pushes to the first block's |
| Verification.VerifiersConcat | bluesky-community-verifications.user.js:59-90 | the verifier list of two blocks of users is the first block's list followed by the second's |
| Verification.VerifiersOrderIrrelevant | bluesky-community-verifications.user.js:58-90 | whichever block of users settles first, the verifier list holds the same handles the same number of times |
| Verification.VerifiersSingle | bluesky-community-verifications.user.js:59-87 | a list of one user yields exactly that user's pushes |
| Verification.VerifiersWithout | bluesky-community-verifications.user.js:58-90 | taking one user out of the list takes exactly that user's pushes out of the verifier multiset |
| Verification.VerifiersPermutationInvariant | bluesky-community-verifications.user.js:58-90 | in whatever order the users' fetches settle, as long as each user is processed once with their own result, the verifier list holds the same handles the same number of times |
| Verification.InVerifiersBeforeIff | bluesky-community-verifications.user.js:59-87 | among the first n users, a handle is a verifier exactly when one of them with that handle fetched successfully and has a record naming the target |
| Verification.InVerifiersIff | bluesky-community-verifications.user.js:59-87 | a handle is a verifier exactly when some trusted entry with that handle fetched successfully and has a record naming the target |
| Verification.VerifierMultiplicityBefore | bluesky-community-verifications.user.js:68-77 | in a list where the i-th handle is unique, that handle occurs among the first n users' pushes once per matching record when i < n, and not at all otherwise |
| Verification.CountAfterBlock | bluesky-community-verifications.user.js:75 | a block of pushes of one user raises that user's count by its length and no other count |
| Verification.VerifierMultiplicity | bluesky-community-verifications.user.js:59-87 | in a duplicate-free trusted list, each user occurs among the verifiers exactly once per record whose subject is the target |
| Verification.FailedUserNeverVerifies | bluesky-community-verifications.user.js:80-86 | in a duplicate-free trusted list, a user whose fetch failed is never a verifier |
| Verification.FailureIsolated | bluesky-community-verifications.user.js:59-87 | making one user's fetch fail does not change how often any other handle is a verifier, whether or not the list has duplicates |
| Verification.VerifiedIffSomeRecord | bluesky-community-verifications.user.js:97-104 | the verifier list is non-empty exactly when some successful fetch has a record naming the target |
| Verification.VerificationChecker.constructor | bluesky-community-verifications.user.js:41-42 | the verifier list starts empty |
| Verification.VerificationChecker.CheckTrustedUser | bluesky-community-verifications.user.js:59-87 | the user is appended to `profileVerifiers` once per matching record of a successful, non-empty `records` array, and the outcome object matches the fetch result |
| Verification.VerificationChecker.CheckTrustedUserVerifications | bluesky-community-verifications.user.js:45-105 | an empty trusted list gives `false`, an empty verifier list and no fetch; otherwise `profileVerifiers` is reset and becomes every user's pushes in list order, there is one outcome per user, and the result is `true` exactly when the verifier list is non-empty |
| TrustList.StoreScenario | bluesky-community-verifications.user.js:26-39 | adding alice, bob and alice again lists each once in first-added order; removing alice leaves bob |
| Verification.CheckScenario | bluesky-community-verifications.user.js:45-105 | with alice verifying the target and bob's fetch failing, the check reports alice alone and bob's failure; for another target it reports nobody |
| JsStrings.OccursAtShift | bluesky-community-verifications.user.js:397 | an occurrence in the tail of a string is an occurrence in the string one index further on |
| JsStrings.IndexOf | bluesky-community-verifications.user.js:397 | `indexOf` finds an occurrence with none before it, or reports none when there is no occurrence anywhere |
| JsStrings.Contains | bluesky-community-verifications.user.js:397 | `includes`: true exactly when the search string occurs somewhere |
| JsStrings.Join | bluesky-community-verifications.user.js:124 | `join`: empty for no pieces; a single piece is the result itself; with more, the first piece, the separator and the join of the rest |
| JsStrings.OccurrenceContains | bluesky-community-verifications.user.js:397 | any occurrence makes `includes` true |
| JsStrings.ContainsChar | bluesky-community-verifications.user.js:398 | `includes` of one character is membership of that character |
| JsStrings.IndexOfIs | bluesky-community-verifications.user.js:397 | an occurrence with none before it is what `indexOf` returns |
| JsStrings.Split | bluesky-community-verifications.user.js:398 | `split` yields at least one piece, at least two when the separator occurs, and no piece contains the separator |
| JsStrings.JoinSplit | bluesky-community-verifications.user.js:398 | joining the pieces of a split with the separator restores the string |
| JsStrings.SplitJoin | bluesky-community-verifications.user.js:124 | splitting a join restores the pieces when no piece holds the separator's first character |
| JsStrings.SplitAtFirst | bluesky-community-verifications.user.js:413 | a leading piece without the separator's first character is split off whole |
| JsStrings.SplitAfterClearPrefix | bluesky-community-verifications.user.js:398 | the first separator in a string is the one after a prefix that cannot hold it |
| JsStrings.SplitWhole | bluesky-community-verifications.user.js:124 | a string without the separator's first character is a single piece |
| JsStrings.SplitHeadPrefix | bluesky-community-verifications.user.js:398 | the first piece of a split is a prefix of the string that reaches at least to the separator's first character |
| JsStrings.SplitHeadExact | bluesky-community-verifications.user.js:398 | the first piece ends exactly where the separator first occurs |
| JsStrings.OccursAtInPrefix | bluesky-community-verifications.user.js:397 | an occurrence that fits inside a prefix is found in the prefix and in the whole string alike |
| JsStrings.FirstCharBlocks | bluesky-community-verifications.user.js:398 | the separator cannot start inside a stretch that lacks its first character |
| JsStrings.NoOccurrenceInPrefix | bluesky-community-verifications.user.js:398 | the piece before the first occurrence does not contain the separator |
| ProfileIds.MarkerHasSeparator | bluesky-community-verifications.user.js:397-398 | a URL containing "bsky.app/profile/" splits on "/profile/" into at least two pieces, so element [1] exists |
| ProfileIds.ExtractHandle | bluesky-community-verifications.user.js:397-398 | a handle is extracted exactly when the URL contains "bsky.app/profile/", and it never holds a '/' |
| ProfileIds.ExtractHandleOfProfileUrl | bluesky-community-verifications.user.js:397-398 | the handle written after "bsky.app/profile/" in a URL is the one extracted, whatever path follows it |
| ProfileIds.HandleSegment | bluesky-community-verifications.user.js:398 | the piece after the separator, split on '/', starts with the handle |
| ProfileIds.ExtractHandleOfBskyUrl | bluesky-community-verifications.user.js:397-398 | on a `https://bsky.app/profile/<handle>` page the handle is the one extracted |
| ProfileIds.ExtractDid | bluesky-community-verifications.user.js:413 | an extracted DID never holds a '/' |
| ProfileIds.ExtractDidOfShortUri | bluesky-community-verifications.user.js:413 | a URI with one or two '/'-separated fields yields no DID (JavaScript's undefined) |
| ProfileIds.ExtractDidOfRecordUri | bluesky-community-verifications.user.js:413 | the DID written after "at://" in a record URI is the one extracted |
| ProfileIds.DidSegment | bluesky-community-verifications.user.js:413 | the part after "at://", split on '/', starts with the DID |
| ProfileIds.ExtractDidOfFullRecordUri | bluesky-community-verifications.user.js:413 | the DID of `at://<did>/<collection>/<rkey>` is the one extracted |
| Badge.TooltipText | bluesky-community-verifications.user.js:122-125 | with more than one verifier the text starts with "Verified by: ", otherwise with "Verified by " |
| Badge.TooltipListsVerifiers | bluesky-community-verifications.user.js:122-125 | the tooltip names exactly the verifiers, in list order and with repetitions: reading it back gives the list, for one verifier and for several |

## Left out

- DOM construction: the badge element, its popup, the settings modal and its button listeners
  (lines 107-392). The model keeps only the tooltip text.
- URL-change detection with a `MutationObserver` and the removal of an old badge (lines 457-482).
  This is browser event plumbing.
- The network: the `fetch` calls and the `response.json()` decoding (lines 61-64, 405-447). Each
  trusted user's fetch result is an input to `CheckTrustedUserVerifications`: the decoded response
  or the thrown error.
- The profile `getRecord` fetch that yields the record URI (lines 405-413). `ExtractDid` takes the
  URI as its input.
- The fetch of the viewed user's own verification records (lines 417-443). Its data is only
  logged, but the verification check at line 436 runs in its callback. When this fetch, the profile
  fetch before it, or the decoding of either fails, or the profile record has no `uri` (line 413
  then throws), no check is made. The model starts from a
  check that does run.
- `Promise.all` concurrency (lines 58-90). The users are processed one after another in list
  order. Each user's pushes stay together, because the record loop has no `await` inside it.
  `VerifiersPermutationInvariant` shows that any settling order changes only the order of the
  verifier list, not which handles it holds or how often.
- A check for an earlier profile still in flight when the URL changes can push into the freshly
  reset `profileVerifiers`. In the other direction, a newer check's reset at line 47 throws away
  the pushes the older check already made, and the older check's test at line 98 then reads the
  newer list. Neither is modelled, because both need interleaving.
- `console.log` and `console.error` output, and the `window.bskyTrustedUsersInitialized` guard
  (lines 3-9).
- The JSON encoding of the stored list. Writing and then reading it is taken as the identity.
  A stored value that is not a JSON array of strings is not modelled.
- A record that is itself `null` inside `records`. Reading `record.value` then throws a
  TypeError in the middle of the loop, after some pushes were made. Records are modelled as
  objects whose `value` may be absent.
- Non-string `subject` values. A subject is modelled as an optional string.
- `data.records` that is present but not an array. `records` is modelled as an optional array.
- `bluesky-community-verifications.meta.js` is not part of this model. It is the userscript
  metadata header.
- Verification.VerifiersBefore: its own contract states only the empty case. What the pushes
  are is stated by `InVerifiersBeforeIff`, `VerifierMultiplicityBefore` and `VerifiersFromUsers`.
- Badge.TooltipText: its own contract states only the prefix. The full content (every verifier,
  in order) is stated by `TooltipListsVerifiers`, for handles without ',' (handles are domain
  names).
- ProfileIds.ExtractHandleOfProfileUrl: requires that the text before "bsky.app/profile/" does not
  itself contain "/profile/", because otherwise `split` cuts the URL earlier.
