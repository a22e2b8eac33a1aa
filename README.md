# Tinder-IESGO session core in Dafny

This project models the core of the Tinder-IESGO campus dating demo: the session store of
the application context, the discovery feed and the compatibility badge, the swipe card's
drag rules, the feed screen's swipe handler, the matches screen (its two rows, its chat
partner lookup and its send box), and the login screen's three-step flow.

The project has one module per source file:

- `Types` (types.ts): the records and enumerations, plus the official course and interest lists.
- `Catalog` (constants.ts): the six mock candidates and the default profile.
- `Ids`: the clock-derived ids `match_<ms>`, `msg_<ms>` and `msg_r_<ms>`, as decimal strings.
- `Compatibility` (calculateCompatibility).
- `Filters` (potentialMatches and the toggle-set filter lists).
- `AppContext` (the provider's state, as the `Session` class).
- `Card`, `Feed`, `Matches` and `Auth`: the screens.
- `Scenarios`: client walks through login, swipes, chat and filters that use only the contracts.

How the model handles timers, randomness and time:

- The provider's timers become an explicit queue, `Session.pending`. There are three timers:
  - login completion (800 ms);
  - the study-date opener (500 ms);
  - the automatic reply (3000 ms).
- `Session.RunTask(i, now)` fires one queued task, in any order the caller chooses.
- Each task keeps what its closure captured when it was scheduled. The opener task records the
  user who swiped. The opener is sent through that user's send path, even after a logout.
- `Math.random()` and `Date.now()` become parameters: `draw`/`roll` is a real in [0, 1), and
  `now` is a natural number of milliseconds.
- An operation that reads the clock more than once is given a single `now`.

Behaviour of the code that the model keeps, though it may surprise:

- `logout` does not cancel pending timers. A late auto-reply or opener still files a message into
  the now-empty thread map.
- The study-date opener goes through the ordinary send path, so it is attributed to the user who
  swiped, not to the candidate.
- A course that is the empty string counts as missing, both in the feed's course filter and in
  the compatibility score. This follows JavaScript truthiness (`Types.Present`).
- Restoring from storage (context/AppContext.tsx:63-84) is a single try block: one malformed entry
  stops the entries after it from loading. Persistence itself is left out (see below).

## Model

| member | source | states |
|---|---|---|
| Types.CoursesAreDistinct | types.ts:62-75 | the official course list has twelve entries, none repeated |
| Types.InterestsAreDistinct | types.ts:77-86 | the interest list has twenty-five entries, none repeated |
| Catalog.MockIdsDistinctAndNotLocal | constants.ts:3-100 | there are six mock candidates with pairwise different ids, none of them the local id "me" |
| Catalog.EveryProfileHasAPhoto | constants.ts:3-118 | every mock candidate and the default profile has at least one photo (the cards and chat header show photos[0]) |
| Catalog.EveryCourseIsOfficial | constants.ts:3-118 | every mock candidate's course and the default profile's course is on the official course list |
| Catalog.InitialUserFacts | constants.ts:102-118 | the default profile has id "me" and is not verified |
| Ids.DigitChar | context/AppContext.tsx:202 | the digit character for d is a decimal digit whose value is d |
| Ids.Decimal | context/AppContext.tsx:202 | the decimal rendering of a timestamp is non-empty and all digits |
| Ids.DecimalRoundTrip | context/AppContext.tsx:202 | parsing the decimal rendering of n gives back n |
| Ids.DecimalInjective | context/AppContext.tsx:202 | two timestamps render the same exactly when they are equal |
| Ids.MatchIdsCollideOnlyOnSameClock | context/AppContext.tsx:202 | two match ids coincide if and only if they were made at the same millisecond |
| Ids.MessageAndReplyIdsDiffer | context/AppContext.tsx:227-264 | a sent message's id never equals an automatic reply's id, whatever the clocks |
| Compatibility.FallbackScore | context/AppContext.tsx:331 | the random fallback score lies between 50 and 75 inclusive |
| Compatibility.Score | context/AppContext.tsx:305-332 | the score is between 50 and 95 and never 88; with nobody logged in, or a missing or empty course on either side, it is 65 "Match Misterioso" |
| Compatibility.TechRuleUnreachable | context/AppContext.tsx:327-329 | a pair of courses that both belong to the one-course technology set is a same-course pair, so the 88-point rule never fires |
| Compatibility.HighScoreIffRelated | context/AppContext.tsx:311-331 | a score of 80 or more holds if and only if both courses are present and the two are equal, both agrarian, both health, or law and psychology |
| Compatibility.ScoreSymmetric | context/AppContext.tsx:311-331 | swapping the viewer and the candidate gives the same score and label |
| Compatibility.AgrarianBeforeHealth | context/AppContext.tsx:314-320 | veterinary medicine with agronomy scores 95, because the agrarian rule comes first; with biomedicine it scores 80 |
| Compatibility.SameCourse | context/AppContext.tsx:312 | the same course on both sides scores 85, with "Casal " followed by the course as label |
| Compatibility.InitialUserAlwaysFallsBack | context/AppContext.tsx:305-332 | the default profile sees every mock candidate through the random fallback |
| Filters.FilterEligible | context/AppContext.tsx:164-183 | a user is kept if and only if they are in the catalog and eligible; the result is no longer than the catalog |
| Filters.PotentialMatches | context/AppContext.tsx:164-183 | the feed is empty with nobody logged in; otherwise a user is in the feed if and only if they are a catalog user who is not oneself, was never swiped by the current user, shares an interest when interest filters are active, and has a listed course when course filters are active |
| Filters.FilterIsSubsequence | context/AppContext.tsx:164 | the filtered list keeps catalog order (an order-preserving subsequence) |
| Filters.FeedIsSubsequence | context/AppContext.tsx:164 | the feed keeps catalog order, logged in or not |
| Filters.FeedExcludesSelfAndSwiped | context/AppContext.tsx:165-182 | everyone in the feed is someone else, was never swiped by the current user, and meets every active filter |
| Filters.SwipeRemovesTarget | context/AppContext.tsx:168-195 | appending a swipe by the current user removes exactly that target from the feed and leaves the rest in order |
| Filters.FilterKeepsAll | context/AppContext.tsx:164-183 | when every catalog user is eligible, the feed is the whole catalog |
| Filters.InitialFeedIsWholeCatalog | context/AppContext.tsx:114-183 | right after logging in with any email, with no swipes and no filters, the feed is the six mock users in catalog order |
| Filters.RemoveId | context/AppContext.tsx:168-169 | the result holds exactly the entries whose id differs from the given one |
| Filters.RemoveAll | context/AppContext.tsx:141 | the result holds exactly the entries other than v and is no longer than the list |
| Filters.Toggle | context/AppContext.tsx:138-152 | v is active after a toggle if and only if it was inactive before; every other value keeps its state |
| Filters.ToggleTwice | context/AppContext.tsx:138-152 | toggling an inactive value twice gives back the identical list |
| Filters.RemoveAllAppend | context/AppContext.tsx:141-142 | removing a freshly appended value restores the list it was appended to |
| AppContext.PatchIdempotent | context/AppContext.tsx:132-136 | merging the same partial profile twice equals merging it once, and an empty patch changes nothing |
| AppContext.ShiftPatchChangesOnlyShift | context/AppContext.tsx:134 | a patch that only sets the shift changes only the shift |
| AppContext.Thread | context/AppContext.tsx:239 | a match without a stored thread has the empty thread |
| AppContext.SetLastMessage | context/AppContext.tsx:242-251 | the match list keeps its length; each match with the id gets the content and time as its last message, and every other match is unchanged |
| AppContext.MatchedUserLeavesFeed | context/AppContext.tsx:164-208 | once the current user has matched with someone, that person never reappears in their feed, whatever the filters |
| AppContext.BackedAfterSwipe | context/AppContext.tsx:195 | appending a swipe keeps every match backed by a recorded like or study swipe |
| AppContext.BackedAfterMatch | context/AppContext.tsx:201-208 | prepending the match created by the latest swipe keeps every match backed by a swipe |
| AppContext.BackedAfterLastMessage | context/AppContext.tsx:242-251 | updating last messages keeps the matches backed and their unread counts at zero |
| AppContext.Session.constructor | context/AppContext.tsx:39-84 | after start-up with nothing stored: the mock catalog, nobody logged in, empty log, matches, threads and filters, the light theme, not loading, no timers; the invariant holds |
| AppContext.Session.Login | context/AppContext.tsx:114-120 | sets loading and schedules the completion task for the typed email; nothing else changes |
| AppContext.Session.Logout | context/AppContext.tsx:122-130 | clears the user, swipes, matches, threads and both filter lists; keeps the theme, the loading flag and the pending timers |
| AppContext.Session.UpdateProfile | context/AppContext.tsx:132-136 | when logged in, only the current user changes, to the patch merged over it; otherwise nothing changes |
| AppContext.Session.ToggleFilter | context/AppContext.tsx:138-144 | only the interest filters change, to the toggled list |
| AppContext.Session.ToggleCourseFilter | context/AppContext.tsx:146-152 | only the course filters change, to the toggled list |
| AppContext.Session.ClearFilters | context/AppContext.tsx:154-157 | both filter lists become empty; nothing else changes |
| AppContext.Session.ToggleTheme | context/AppContext.tsx:159-161 | the theme flips between light and dark; nothing else changes |
| AppContext.Session.Swipe | context/AppContext.tsx:185-222 | it reports a match if and only if someone is logged in, the action is a like or study, and the draw exceeds 0.4; logged out nothing changes; otherwise the swipe is appended, and on a match the new match goes first with an empty thread, plus an opener task for a study; every match stays backed by a swipe |
| AppContext.Session.Post | context/AppContext.tsx:227-251 | appends a read message to the match's thread (creating the thread if absent) and sets the last message of the matches with that id; nothing else changes |
| AppContext.Session.SendMessage | context/AppContext.tsx:224-273 | logged out nothing changes; otherwise the message from the current user is appended and mirrored as last message, and an automatic reply is scheduled exactly when the sender is "me" |
| AppContext.Session.RunTask | context/AppContext.tsx:116-270 | fires one task and removes it from the queue: login sets the default profile with the captured email and clears loading; the opener posts the scripted text as the swiper (scheduling a reply for "me"); a reply appends the unread "other" message; the invariants are kept |
| Card.DragDirection | components/Card.tsx:32-40 | right if and only if x > 100; left if and only if x < -100; up if and only if x is within ±100 and y < -100; no swipe otherwise |
| Card.HorizontalTakesPriority | components/Card.tsx:33-39 | past the horizontal threshold the vertical offset does not matter |
| Card.BoundaryDoesNotSwipe | components/Card.tsx:33-39 | offsets of exactly ±100 do not swipe |
| Card.IsDraggable | components/Card.tsx:42-54 | only the card with stacking index 1 can be dragged; that index is also its z-index, so the draggable card lies above the base card |
| Card.ButtonDirection | components/Card.tsx:188-213 | the X button reports left, the Study button up and the heart button right; each direction belongs to exactly one button |
| Feed.ActionFor | pages/Feed.tsx:21-23 | right is a like, up is a study, and left is a pass, each as an if-and-only-if |
| Feed.ButtonsProduceTheirActions | components/Card.tsx:188-213 | the X button passes, the Study button asks for a study date, the heart button likes |
| Feed.UpwardDragIsStudy | components/Card.tsx:37-38 | an upward drag past the threshold inside the horizontal band becomes a study swipe |
| Feed.TotalFilters | pages/Feed.tsx:15 | the badge count is zero if and only if both filter lists are empty, and is at least each list's size |
| Feed.CardStack | pages/Feed.tsx:61-68 | at most two cards are rendered; the last is the first candidate with stacking index 1, and the one below is the second candidate with index 0 |
| Feed.OnlyTopCardDraggable | pages/Feed.tsx:62-67 | exactly one rendered card is draggable, and it is the first candidate of the feed |
| Feed.FeedView.constructor | pages/Feed.tsx:11-12 | starts with no popup |
| Feed.FeedView.HandleSwipe | pages/Feed.tsx:17-30 | with an empty feed nothing changes; otherwise the whole new session state is that of swiping the first candidate with the direction's action (swipe appended; on a match the new match first, its empty thread, and the opener timer for a study), every other field unchanged, and the popup shows that candidate exactly when the swipe matched |
| Matches.OtherParticipant | pages/Matches.tsx:16 | the first of the two ids that is not the current user's; none only when both ids are the current user's |
| Matches.OtherParticipantIsSwipedUser | pages/Matches.tsx:155 | for a match the current user created, the other participant is the swiped candidate |
| Matches.FindUser | pages/Matches.tsx:17 | the found user is the first catalog entry with that id; nothing is found if and only if no catalog user has the id |
| Matches.FindMatch | pages/Matches.tsx:15 | the found match is the first in the list with that id; nothing is found if and only if no match has the id |
| Matches.ChatPartner | pages/Matches.tsx:15-24 | the chat header shows the catalog profile of the match's other participant, or the placeholder exactly when the match or that participant is unknown |
| Matches.PlaceholderIsNotACatalogUser | pages/Matches.tsx:17-24 | for a catalog without the id "unknown", the partner id is "unknown" if and only if the placeholder is shown |
| Matches.MockCatalogHasNoPlaceholder | pages/Matches.tsx:17-18 | no mock candidate has the placeholder id "unknown" |
| Matches.NewMatches | pages/Matches.tsx:154 | a match is in the new-matches row if and only if its thread is missing or empty |
| Matches.Conversations | pages/Matches.tsx:178 | a match is in the conversations row if and only if its thread has a message |
| Matches.RowsPartitionMatches | pages/Matches.tsx:154-178 | every match is in exactly one row; both rows keep list order; their sizes add up to the list's |
| Matches.ListedRow | pages/Matches.tsx:154-182 | the drawn matches form an order-preserving subsequence of the row; each entry pairs a match of the row with its other participant's catalog profile; every match whose participant is known is drawn |
| Matches.IsMine | pages/Matches.tsx:89 | a message is drawn as mine only when someone is logged in and is its sender; with nobody logged in no message is |
| Matches.OpenerShownAsMine | pages/Matches.tsx:89 | the study opener is drawn as written by the swiper; an automatic reply is drawn as mine only for a user whose id is "other" |
| Matches.TrimStart | pages/Matches.tsx:35 | the result is the input with its leading white space removed: everything dropped is white space and the result does not start with any |
| Matches.TrimEnd | pages/Matches.tsx:35 | the result is the input with its trailing white space removed: everything dropped is white space and the result does not end with any |
| Matches.TrimEmptyIffBlank | pages/Matches.tsx:35 | the trimmed input is empty if and only if every character is white space |
| Matches.TrimEndKeepsNonSpace | pages/Matches.tsx:35 | text starting with a non-space character does not trim to nothing |
| Matches.ChatView.constructor | pages/Matches.tsx:9-11 | opens on the given match with an empty input |
| Matches.ChatView.ChatMessages | pages/Matches.tsx:26 | the chat lists the match's stored thread, or nothing when the match has none |
| Matches.ChatView.Type | pages/Matches.tsx:112 | the input becomes the typed text |
| Matches.ChatView.HandleSend | pages/Matches.tsx:34-38 | blank input changes nothing; otherwise the input is cleared and, when logged in, the listed messages become the old ones followed by the untrimmed text as the current user's message |
| Auth.AuthView.constructor | pages/Auth.tsx:10-11 | starts at the welcome step with an empty email |
| Auth.LooksLikeEmail | pages/Auth.tsx:16 | the check passes if and only if an '@' occurs at some position and a '.' at some position; an email that passes has at least two characters |
| Auth.AuthView.EnterNow | pages/Auth.tsx:60 | moves from the welcome step to the email step |
| Auth.AuthView.TypeEmail | pages/Auth.tsx:79-80 | the email becomes the typed text |
| Auth.AuthView.Submit | pages/Auth.tsx:13-24 | at the email step it advances if and only if the email contains '@' and '.', and the session is untouched; at the code step it starts the login with the stored email; the code step is only ever reached with such an email |
| Auth.AuthView.Cancel | pages/Auth.tsx:103-109 | returns to the welcome step and keeps the email |
| Auth.EmailCheckExamples | pages/Auth.tsx:16 | "@." passes the check, while addresses lacking either character fail |

## Left out

- Persistence is left out: restoring from and writing to local storage, and `localStorage.clear()` on logout. It is I/O against a storage collaborator. The constructor is the state after start-up with empty storage, where the initialisation effect has already turned `loading` off.
- The theme's initial value read from storage, and the `dark` class on the document root, are left out. This is I/O and rendering. The theme starts as light.
- verifyProfile, the icebreaker generator and the `isVerifying` flag are left out. They are network calls to an external AI service.
- The `users` catalog state is never replaced in the code. It is modelled as a constant.
- Rendering, animation, framer-motion drag physics, the filter modal, the match popup component, the app shell and the layout's unread badge are left out. They are presentation.
- The HTML validation of the email input (`type="email"` and `required`) is left out. That check belongs to the browser, not the code. The model only knows the code's own '@'/'.' check.
- The alert shown for a rejected email is left out. Only the unchanged step is modelled.
- A drag offset that is NaN is left out. Offsets are real numbers.
- Times are unbounded naturals. Clock wrap-around and `toLocaleTimeString` formatting are left out.
- Two swipes or sends in the same millisecond are not excluded. The id lemmas state exactly when ids collide.
- Matches.ChatView.HandleSend: spells out the thread of the current match only. The last-message update and the reply timer are those of `AppContext.Session.SendMessage`.
- Image messages are left out. The send path never creates them: `SendMessage` requires a text or icebreaker kind.
- Compatibility.FallbackScore: the draw is an exact real in [0, 1), so double rounding is not modelled. The bound 50..75 holds for a real draw. For the largest double below 1, `draw * 26 + 50` rounds up to 76.0 in floating point, and the code would then show 76.
- AppContext.Session.Swipe: the test `draw > 0.4` compares exact reals, so double rounding is not modelled. The double nearest to 0.4 is slightly above the real 0.4. The model counts that draw as a match, while the code's comparison with the literal 0.4 does not.
