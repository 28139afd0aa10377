# Tutor Connect: a verified model of the app's state logic

Tutor Connect is a single-page React app. Students use it to find tutors, book sessions, follow
those sessions, and manage a wallet, a Pro subscription, their grades and their school timetable.
This Dafny project models the app's state logic and proves what that logic guarantees:

- **Search** (`Search`, `App.App.HandleSearch`). The main screen's tutor search lower-cases and
  trims the query and filters the catalog locally. It then merges the local result with an
  ordered id list from an external ranking service. If that service throws, a narrower fallback
  filter is used.
- **Booking lifecycle** (`App`). Choosing a tutor on the profile dialog moves them to the booking
  dialog. Confirming creates a pending booking. Two delayed callbacks follow: after 1 s the
  booking lands in the list, and 5 s later it is confirmed by id. The model treats both
  callbacks as explicit events.
- **Activity list** (`ActivityList`). Bookings are shown newest first. Each card has
  time-gated cancel, edit and enter-class actions.
- **Account screen** (`AccountScreen`). Top-up, the Pro upgrade, the grade list and the
  tutor-registration subject picker.
- **Home screen** (`HomeScreen`). Upcoming sessions, the greeting, the weekly timetable grouped
  by weekday, the add-timetable dialog and the simulated timetable scan.

The project is organised as follows:

- Records from `types.ts` are datatypes (`Types`). The catalog from `services/mockData.ts` is
  `MockData`.
- JavaScript string and list built-ins get small specified models:
  - `Text` covers `toLowerCase`, `trim`, `includes`, digit stripping and decimal rendering.
  - `Seqs` covers `filter` and sorting by a numeric key.
- Components whose state changes in place are classes: `App.App`, `AccountScreen.AccountScreen`
  and `HomeScreen.HomeScreen`. The user profile is a value that the app holds, and every update
  replaces it as a whole, as `onUpdateProfile` does.
- Times are integer milliseconds.
- Each use of `Date.now()` becomes a `now: nat` parameter. The ranking service's language-model
  reply, the random draw behind the deposit code, and the answer to a confirmation prompt are
  also parameters.

## Model

| member | source | states |
|---|---|---|
| Text.TrimEmptyIff | App.tsx:59-60 | trimming leaves nothing exactly when every character is JavaScript white space |
| Text.TrimStart | App.tsx:59 | the result is a suffix, does not start with white space, and only white space was dropped |
| Text.TrimEnd | App.tsx:59 | the result is a prefix, does not end with white space, and only white space was dropped |
| Text.Trim | App.tsx:59 | `trim` returns the middle of the text: the text reads as white space, then the result, then white space, and the result neither starts nor ends with white space |
| Text.TrimmedFromParts | App.tsx:59 | dropping white space from the front and then from the back leaves such a middle part |
| Text.TrimKeepsNonBlank | App.tsx:59-60 | a text that ends in a character other than white space is not emptied by trimming |
| Text.ToLower | App.tsx:59 | `toLowerCase` maps every character on its own: A to Z become a to z, every other character is kept; so the length is kept and no capital ASCII letter is left |
| Text.ToLowerIdempotent | App.tsx:59 | lower-casing twice is lower-casing once |
| Text.ContainsIff | App.tsx:71-74 | `includes` holds exactly when the needle occurs at some position of the text |
| Text.DigitsOnly | components/AccountScreen.tsx:165 | removing non-digits leaves only digits, never lengthens the text, and leaves an all-digit text as it is |
| Text.DigitsOnlyAppend | components/AccountScreen.tsx:165 | removing non-digits works piece by piece over a concatenation |
| Text.ParseDecimal | components/AccountScreen.tsx:165-166 | a digit string reads as 0 exactly when every digit is a zero, which the top-up rejects |
| Text.DecimalString | App.tsx:133 | `toString` of a number is a non-empty digit string without a leading zero |
| Text.ParseDecimalString | components/AccountScreen.tsx:165 | parsing the decimal rendering of a number gives the number back |
| Text.DecimalStringInjective | App.tsx:133 | different instants render to different id strings |
| Text.SixDigits | App.tsx:31 | every number from 100000 to 999999 renders to six digits |
| Seqs.Filter | App.tsx:70-75 | the result has only accepted input elements and keeps every accepted element |
| Seqs.FilterAppend | App.tsx:70-75 | filtering distributes over concatenation, so it keeps the catalog order |
| Seqs.FilterMultiset | components/HomeScreen.tsx:15 | filtering keeps every occurrence of an accepted element and none of a rejected one |
| Seqs.SortBy | App.tsx:87 | the result is sorted ascending by the key and is a permutation of the input |
| Seqs.SortByUniqueKeys | App.tsx:87 | sorting keeps ids unique |
| Seqs.FilterUniqueKeys | App.tsx:91 | filtering keeps ids unique |
| MockData.CatalogIdsUnique | services/mockData.ts:3-125 | the six catalog tutors have pairwise different ids |
| MockData.Tutor2InCatalog | services/mockData.ts:25-29 | tutor '2' is in the catalog |
| Search.IndexOf | App.tsx:87 | `indexOf` is -1 exactly for an absent id, and otherwise the first position of the id |
| Search.NormalizeQuery | App.tsx:59 | the query as searched is the lower-cased input with white space cut from both ends and nothing else removed; it has no white space at either end |
| Search.LocalMatches | App.tsx:70-75 | every local match is a catalog tutor meeting the four-field criterion |
| Search.FallbackMatches | App.tsx:101-108 | every fallback match is a catalog tutor whose name or a subject contains the query |
| Search.MatchTutors | services/geminiService.ts:11-57 | a blank query ranks every tutor in list order; otherwise a failed model reply ranks nothing, and a reply ranks its id list |
| Search.ServiceRanker | services/geminiService.ts:53-57 | the service catches its own errors, so the search never sees it throw |
| Search.RankedMatches | App.tsx:84-87 | every ranked entry is a catalog tutor whose id the ranker returned |
| Search.Merge | App.tsx:82-97 | every merged entry comes from the catalog or from the local matches |
| Search.Search | App.tsx:58-112 | every tutor shown is a catalog tutor |
| Search.BlankQueryShowsCatalog | App.tsx:59-63 | a query that is blank after lower-casing and trimming shows the whole catalog in order, whatever the ranker would say |
| Search.LocalMatchesSpec | App.tsx:70-75 | a tutor matches locally exactly when the query occurs in its lower-cased name, a subject, its school or a transcript subject; matches keep catalog order |
| Search.RankedMatchesSpec | App.tsx:84-87 | the ranked part holds exactly the catalog tutors the ranker named (unknown ids ignored); with unique ids it has no repeat and strictly follows the ranker's order |
| Search.MergeTail | App.tsx:90-93 | after the ranked part come exactly the local matches whose id the ranker did not return |
| Search.RankedSearchMembers | App.tsx:82-93 | with a non-empty ranking, a tutor is shown exactly when it is in the catalog and either ranked or a local match |
| Search.EmptyRankingGivesLocalMatches | App.tsx:94-97 | an empty ranking shows exactly the local matches |
| Search.ThrowGivesFallback | App.tsx:101-108 | when the ranker throws, the result is the name-or-subject filter with the untrimmed lower-cased query; school and transcript are not consulted |
| Search.SubjectPrefixMatches | App.tsx:72 | a query that begins a lower-cased subject meets both the local and the fallback criterion |
| Search.MatchingTutorShown | App.tsx:67-108 | a tutor meeting both criteria is shown whatever the ranker does, the error path included |
| Search.SubjectPrefixShown | App.tsx:67-108 | a catalog tutor whose subject begins with an already-normalized query is shown on every path |
| Search.SearchUniqueIds | App.tsx:84-93 | with unique catalog ids, no search shows a tutor twice |
| Search.ServiceFailureGivesLocalMatches | services/geminiService.ts:53-57 | a failed language-model call makes the service return no ids, so the search shows exactly the local matches |
| Search.ServiceShowsLocalMatches | App.tsx:78-97 | with the real ranking service, every local match is shown whatever the model answers |
| Search.NormalizedNotBlank | services/geminiService.ts:12 | a normalized non-empty query is never blank for the service, so the service never ranks the whole list unasked |
| ActivityList.NewestFirst | components/ActivityList.tsx:36 | position i of the list holds the i-th booking from the end; the input is not changed |
| ActivityList.NewestFirstAppend | components/ActivityList.tsx:36 | a booking appended last is listed first |
| ActivityList.NewestFirstInvolution | components/ActivityList.tsx:36 | reversing the newest-first list gives back the stored order |
| ActivityList.IsClassTime | components/ActivityList.tsx:37-41 | inside the window from 900000 ms before to 7200000 ms after the scheduled time, both ends included |
| ActivityList.CanEditOrCancel | components/ActivityList.tsx:45-46 | at most 600000 ms after creation, and not cancelled |
| ActivityList.CardFor | components/ActivityList.tsx:36-127 | a card shows its booking, cancel and edit together exactly while editable, the enter button exactly on a confirmed booking and enabled exactly inside the class window |
| ActivityList.Render | components/ActivityList.tsx:12-36 | the empty state exactly for no booking; otherwise one card per booking, newest first |
| ActivityList.ClassTimeWindow | components/ActivityList.tsx:37-41 | class entry is allowed exactly from 900000 ms before to 7200000 ms after the scheduled time, both ends included |
| ActivityList.EditWindowBounds | components/ActivityList.tsx:45-46 | edit and cancel are allowed exactly while at most 600000 ms have passed and the booking is not cancelled; a future creation time is editable |
| ActivityList.RenderSpec | components/ActivityList.tsx:12-127 | no booking shows the empty state; otherwise one card per booking, newest first, cancel and edit exactly when editable, enter only when confirmed and disabled exactly outside the class window |
| ActivityList.EnterClass | components/ActivityList.tsx:26-32 | the link opens exactly when it is present and non-empty; otherwise only the "no link" alert |
| ActivityList.Mount | components/ActivityList.tsx:11-84 | mounting fails exactly when there is a booking and either no clock or a booking without a cost; otherwise it renders the cards |
| App.NewBooking | App.tsx:132-140 | a new booking is pending, has the selected tutor and the form's subject, time and note, is stamped with the instant, and its id is that instant in decimal |
| App.ConfirmById | App.tsx:148-150 | bookings with the id become confirmed and nothing else changes; the others stay as they were |
| App.ConfirmAppended | App.tsx:144-150 | confirming a just-appended booking with a new id changes that booking only |
| App.ConfirmTwice | App.tsx:148-150 | confirming is idempotent |
| App.BookingIdsDiffer | App.tsx:133 | bookings created at different instants get different ids |
| App.EnterClassWithoutLink | App.tsx:132-140 | no booking the app creates has a class link, so entering class only raises the alert |
| App.InitialProfile | App.tsx:22-35 | the starting balance is 2500000, the student is not Pro, and the deposit code is "TC" followed by six digits |
| App.App.constructor | App.tsx:15-43 | the app starts on the login view with the catalog shown, no booking, no selection, an empty query and no search running |
| App.App.Login | App.tsx:50-52 | logging in opens the home view |
| App.App.Logout | App.tsx:54-56 | logging out returns to the login view |
| App.App.SetSearchQuery | App.tsx:189 | typing replaces the query |
| App.App.HandleSearch | App.tsx:58-112 | the shown list becomes the search result for the current query, and the busy flag is clear afterwards on every path |
| App.App.ShowAll | App.tsx:214-217 | "show all" clears the query and shows the whole catalog |
| App.App.OpenTutorProfile | App.tsx:118-120 | the tapped tutor's profile opens |
| App.App.CloseTutorProfile | App.tsx:336 | closing the profile clears the selection |
| App.App.CloseBookingModal | App.tsx:344 | closing the booking dialog clears its selection |
| App.App.OpenBookingFromProfile | App.tsx:122-126 | the profile selection is cleared and the previously selected tutor, if any, moves to the booking dialog |
| App.App.HandleBookingConfirm | App.tsx:128-142 | nothing happens without a selected tutor; otherwise exactly one pending booking for that tutor is scheduled to land |
| App.App.SubmissionLands | App.tsx:143-155 | the oldest submission is appended at the end of the list, its confirmation is scheduled, the booking dialog closes and the success view opens; every booking stays app-made |
| App.App.AutoConfirmFires | App.tsx:147-151 | the oldest scheduled confirmation confirms the bookings with its id and no others |
| App.PhilosophyQueryFindsTutor | App.tsx:58-112 | searching "Triết" shows every listed tutor with a subject beginning with "Triết", whatever the ranker does, the error path included |
| App.PhilosophyQueryFindsTutor2 | App.tsx:58-112 | searching "Triết" over a catalog listing tutor '2' (the mock catalog does) shows tutor '2', who teaches "Triết học Mác-Lênin", whatever the ranker does |
| App.PhilosophyQueryNormalized | App.tsx:59 | "Triết" normalizes to "triết" |
| App.PhilosophySubjectStartsWithQuery | services/mockData.ts:29 | tutor '2' has three subjects and the third begins with "Triết" |
| App.CatalogSearchUnique | App.tsx:84-93 | no search over the catalog shows a tutor twice |
| App.ActivityTabFailsOnceBooked | App.tsx:132-140 | as mounted without a clock, the activity tab fails as soon as one booking exists; with a clock it still fails once a booking the app created, which has no cost, is listed |
| App.ActivityTabAsWritten | App.tsx:256 | as mounted, the tab fails exactly when there is a booking |
| App.ActivityTab | App.tsx:256 | with the clock passed, the tab fails exactly when some booking has no cost |
| App.ActivityTabShowsEveryBooking | App.tsx:256 | with a clock passed and a cost on every booking, the tab renders one card per booking, newest first |
| AccountScreen.Deposit | components/AccountScreen.tsx:164-171 | a top-up is accepted exactly when the text has a digit and its digits read as at least 10000; the amount credited is the number its digits read as, and only the balance changes, by that amount |
| AccountScreen.DepositLeadingZero | components/AccountScreen.tsx:165 | a leading zero does not change the outcome, so "010000" is credited like "10000" |
| AccountScreen.DepositOfNumber | components/AccountScreen.tsx:165-168 | typing a whole number credits exactly that number when it is at least 10000 and is refused otherwise |
| AccountScreen.DepositWithoutDigits | components/AccountScreen.tsx:165-166 | text without a digit is refused |
| AccountScreen.DepositIgnoresNonDigits | components/AccountScreen.tsx:165 | non-digit characters do not change the amount, wherever they stand |
| AccountScreen.DepositWithSeparator | components/AccountScreen.tsx:165 | "50.000" is read as 50000 |
| AccountScreen.Upgrade | components/AccountScreen.tsx:228-244 | already Pro: nothing; balance under 39000: refused; declined prompt: nothing; otherwise exactly 39000 is charged, Pro is set and the balance stays non-negative |
| AccountScreen.UpgradeOnce | components/AccountScreen.tsx:229 | after an upgrade the button only reports "already Pro" |
| AccountScreen.BalanceStaysNonNegative | components/AccountScreen.tsx:168-240 | a top-up never lowers the balance and an upgrade never makes a non-negative balance negative |
| AccountScreen.InitialProfileUpgrades | components/AccountScreen.tsx:235-240 | the initial profile can upgrade, leaving 2461000 |
| AccountScreen.NewGrade | components/AccountScreen.tsx:37-43 | no grade exactly when the subject or the score is empty; otherwise the fields as typed, with "N/A" for an empty letter |
| AccountScreen.AddGradeSpec | components/AccountScreen.tsx:37-44 | one grade is appended exactly when subject and score are given; earlier grades and every other field are unchanged |
| AccountScreen.AddGrade | components/AccountScreen.tsx:44 | recording a grade appends it after the earlier ones and changes no other field |
| AccountScreen.BlankGradeSubjectAccepted | components/AccountScreen.tsx:37 | a subject of spaces is accepted (it is not trimmed) |
| AccountScreen.ToggleMembership | components/AccountScreen.tsx:302-305 | a click flips the clicked subject's membership and keeps every other selection |
| AccountScreen.ToggleSubject | components/AccountScreen.tsx:302-305 | the clicked subject is selected afterwards exactly when it was not before; a new one is added at the end |
| AccountScreen.ToggleTwice | components/AccountScreen.tsx:302-305 | clicking a subject twice restores the selected set |
| AccountScreen.ToggleKeepsDistinct | components/AccountScreen.tsx:302-305 | a click never selects a subject twice |
| AccountScreen.ToggleAllDistinct | components/AccountScreen.tsx:299-305 | from the empty selection, any series of clicks keeps every subject at most once |
| AccountScreen.AccountScreen.constructor | components/AccountScreen.tsx:402 | the screen opens on its main view with empty sub-screen fields |
| AccountScreen.AccountScreen.Navigate | components/AccountScreen.tsx:404-420 | opening a sub-screen, or going back, shows that view with fresh local state |
| AccountScreen.AccountScreen.SetAmount | components/AccountScreen.tsx:206 | typing replaces the amount field |
| AccountScreen.AccountScreen.SetGradeFields | components/AccountScreen.tsx:126-138 | typing replaces the grade fields |
| AccountScreen.AccountScreen.HandleDeposit | components/AccountScreen.tsx:164-171 | an invalid amount changes nothing; a valid one replaces the profile with the credited one and returns to the main view |
| AccountScreen.AccountScreen.HandleUpgrade | components/AccountScreen.tsx:228-244 | too little balance opens the top-up view with the profile unchanged; a confirmed upgrade stores the charged Pro profile and returns to the main view with the amount field kept; otherwise nothing changes |
| AccountScreen.AccountScreen.HandleAddGrade | components/AccountScreen.tsx:36-48 | the profile gets the new grade and the fields clear when subject and score are given; otherwise nothing changes |
| AccountScreen.AccountScreen.Toggle | components/AccountScreen.tsx:302-305 | the selection becomes the toggled one and stays free of repeats |
| HomeScreen.UpcomingBookingsSpec | components/HomeScreen.tsx:14-16 | upcoming bookings are exactly those scheduled strictly after now, each as often as in the list, in ascending time |
| HomeScreen.UpcomingBookings | components/HomeScreen.tsx:14-16 | the upcoming list is in ascending time and no longer than the booking list |
| HomeScreen.ShownUpcomingSpec | components/HomeScreen.tsx:143 | the card shows the first two upcoming sessions, or all of them if fewer, and none shown is later than one left out |
| HomeScreen.ShownUpcoming | components/HomeScreen.tsx:143 | the card shows a prefix of the upcoming list of at most two, all of it when it is shorter |
| HomeScreen.LastWord | components/HomeScreen.tsx:119 | the greeting word is the part of the name after its last space: a suffix without a space, preceded by a space or the start |
| HomeScreen.LastWordAfterSpace | components/HomeScreen.tsx:119 | whatever comes before the final space, the greeting is the word after it |
| HomeScreen.GreetingWord | components/HomeScreen.tsx:119 | the initial student "Nguyễn Văn Học" is greeted as "Học" |
| HomeScreen.GroupsOf | components/HomeScreen.tsx:196-200 | each group is headed by a weekday and lists at least one item, all of that day and from the timetable |
| HomeScreen.GroupsComplete | components/HomeScreen.tsx:196-200 | an item is listed under its own day exactly when its day is one of the weekdays |
| HomeScreen.GroupsOrdered | components/HomeScreen.tsx:196 | groups follow the weekday order, so no day appears twice |
| HomeScreen.DaysDistinct | components/HomeScreen.tsx:32 | the seven weekday names differ |
| HomeScreen.ScheduleDisplaySpec | components/HomeScreen.tsx:192-200 | an empty timetable shows the hint; otherwise groups in Monday-to-Sunday order, every item with a known weekday under its day, others not shown |
| HomeScreen.ScheduleDisplay | components/HomeScreen.tsx:192-200 | the hint exactly for an empty timetable; otherwise at most seven non-empty groups, each headed by a weekday |
| HomeScreen.OrDefault | components/HomeScreen.tsx:45-48 | an absent or empty field takes its default; any other value is kept |
| HomeScreen.OcrItems | components/HomeScreen.tsx:74-94 | the scan yields two items, ids `ocr_<instant>_1` and `_2`, on Thứ 4 and Thứ 6 |
| HomeScreen.NewScheduleItem | components/HomeScreen.tsx:34-51 | nothing is saved exactly when the subject is missing or only white space; otherwise the item carries the id and subject, the defaults Thứ 2, 07:00, 09:00 and an empty room, and the dates as given |
| HomeScreen.OcrUpdate | components/HomeScreen.tsx:96-97 | the intended scan update yields two more items than the timetable current when the scan lands |
| HomeScreen.OcrUpdateKeepsCurrent | components/HomeScreen.tsx:96-97 | the intended scan update keeps the current timetable as a prefix and adds the two scanned items after it |
| HomeScreen.OcrUpdateAsWritten | components/HomeScreen.tsx:97 | the written update is the timetable captured at file choice followed by exactly the two scanned items |
| HomeScreen.NewIdNotInScan | components/HomeScreen.tsx:42-97 | an item saved under the save instant's id is neither in a timetable without that id nor among the scanned items |
| HomeScreen.OcrIdsDistinct | components/HomeScreen.tsx:77-86 | the two scanned ids differ, scans at different instants give different ids, and no scanned id equals a typed-in item's numeric id |
| HomeScreen.HomeScreen.constructor | components/HomeScreen.tsx:22-30 | the dialog is closed, the form holds the defaults and no scan runs |
| HomeScreen.HomeScreen.OpenAddDialog | components/HomeScreen.tsx:180-183 | the form is reset to the defaults and the dialog opens |
| HomeScreen.HomeScreen.EditForm | components/HomeScreen.tsx:250-292 | typing in the dialog replaces the partially filled item |
| HomeScreen.HomeScreen.AddSchedule | components/HomeScreen.tsx:34-62 | a blank subject changes nothing; otherwise exactly one item is appended after the existing ones, the form is reset to the defaults and the dialog closes |
| HomeScreen.HomeScreen.FileChosen | components/HomeScreen.tsx:64-69 | choosing a file sets the busy flag and starts a scan whose callback holds the timetable as it is now; no file changes nothing |
| HomeScreen.HomeScreen.OcrFires | components/HomeScreen.tsx:69-101 | the oldest scan timer clears the busy flag and sets the timetable to the one its callback captured plus the two scanned items, dropping anything added meanwhile |
| HomeScreen.HomeScreen.OcrFiresIntended | components/HomeScreen.tsx:96-97 | the intended callback clears the busy flag and appends the two scanned items after the timetable current when it fires |
| HomeScreen.ConcurrentAddLost | components/HomeScreen.tsx:34-97 | choose a file, save an item, let the scan land: the timetable ends as at file choice plus the scanned items, and the saved item is gone |
| HomeScreen.ConcurrentAddKept | components/HomeScreen.tsx:34-97 | the same events with the intended callback keep the saved item, followed by the scanned items |

## Left out

- Unicode case mapping: `toLowerCase` is modelled for ASCII letters only. Other characters,
  including Vietnamese capitals such as "Đ", are left as they are.
- `parseInt` on very long digit strings: the model parses exactly. JavaScript loses precision
  above 2^53.
- Floating-point fields (`rating`, `gpa`, `distance`) and the text of money and date displays
  (`toLocaleString`, `toLocaleDateString`, the day and month on the upcoming cards). Formatting
  a booking's missing cost is modelled, as a render failure.
- ISO date strings: a booking's `time` is an integer instant here.
- The two readings of `Date.now()` in a booking (its id and its timestamp) are one instant here.
- Search.Search: two searches overlapping in time are not modelled. Each search runs to
  completion before the next event. The model does not capture a slower, earlier search
  overwriting the result of a later one.
- Search.MatchTutors: only the service's own rules are modelled (blank query, failure gives
  no ids). The remote language model's answer is a parameter, and the prompt text and the JSON
  parsing are not modelled.
- Seqs.SortBy: the contract states sorted order and permutation. It does not state stability,
  which the JavaScript sort has and which matters only for equal keys.
- App.App: the tab navigation and view switches other than login, logout and booking success
  are not modelled. Neither are the chat bot, the career screen, the login form, and the tutor
  card, profile and booking dialogs.
- App.InitialProfile: `Math.random` is the parameter `draw`. The profile literal in App.tsx has
  no `schoolSchedule`; the model starts it as an empty list.
- ActivityList: the cancel and edit callbacks are props without an implementation in this code,
  so the model only decides when their buttons appear.
- HomeScreen: App.tsx never mounts this screen, so no parent receives its schedule updates. The
  model keeps the profile in the screen and applies each update to it.
- HomeScreen.UpcomingBookings: the source compares with the wall clock (`new Date()`) and not
  with the `currentTime` prop. The model takes the instant as a parameter.
- HomeScreen.HomeScreen.OcrFires: resetting the hidden file input is not modelled. Only the
  timetable goes stale in the callback, because the screen hands back the schedule alone.
- AccountScreen: the info, support and registration sub-screens are not modelled beyond the
  fields named in the table. Submitting a tutor registration or a support request only shows an
  alert.
- A continuously ticking simulated clock with a "jump to next class" action does not exist in
  App.tsx, so it is not modelled. ActivityList takes the current instant as a parameter.

## Findings

| source | as written | input that shows it | evidently intended | confidence | as-written member | corrected member |
|---|---|---|---|---|---|---|
| components/HomeScreen.tsx:97 | the scan callback appends to the `userProfile` captured when the file was chosen | choose a file, then add a timetable item through the dialog within the 2 s delay; the added item disappears when the scan lands | append the scanned items to the timetable current when the scan lands, as the comment on line 96 says | medium, not executed | HomeScreen.ConcurrentAddLost | HomeScreen.ConcurrentAddKept |
| App.tsx:256 | the activity list is mounted without the `currentTime` prop it reads at components/ActivityList.tsx:38; the bookings made at App.tsx:132-140 also lack the `cost` that types.ts:47 declares and components/ActivityList.tsx:84 formats | book any tutor, wait for the booking to land, open the activity tab: `currentTime.getTime()` is read on an undefined value; with the clock passed, `booking.cost.toLocaleString` is then called on an undefined value | pass the current instant to the list and give every new booking its cost; the clock alone does not fix the tab | high, not executed | App.ActivityTabFailsOnceBooked | App.ActivityTabShowsEveryBooking |
