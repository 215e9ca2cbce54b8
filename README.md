# Skill-Sync in Dafny

Skill-Sync is a mentorship marketplace. Mentees look for mentors, request
sessions, chat with them and later review them. Mentors confirm or reject requests.
This project models the rules underneath: the presence registry and message
relay of the socket server, the booking, review and user routes with their
schemas, and the client-side logic that lists, groups, counts and edits what
those routes send back.

The database is three maps of records keyed by id (`Store.Store`). The socket
server's `onlineUsers` array is a field of `Relay.Relay`. Every page whose
handlers update React state is a class whose methods change that state.
Requests and replies are parameters of those methods. JavaScript values are
modelled explicitly (`Js`):
- absent, `null`, `""`, `0` and `NaN` are falsy, and `[]` is truthy;
- `===` tells `NaN` apart;
- `x || y` is the fallback the controllers use;
- `split`, `join`, `trim`, `toUpperCase` and `Number(...)` are written out for the forms the sources use.

Each module follows one source file. Shared vocabulary lives in `Js`, `Seqs`
(counts, duplicate-free lists in first-occurrence order, ordered sublists,
`slice(0, n)`), `Options`, `Http` (replies with a status code) and `Views`
(the JSON shapes the browser receives, with populated references).

The properties proved fall into these groups:
- the registry never holds a user twice, and the first socket wins;
- a chat message is saved before it is broadcast, and only a registered receiver is notified;
- the guard order of every route;
- a booking gets at most one review, and only from its mentee, as long as review requests for it do not overlap (see "## Left out");
- a status update changes only the status;
- a profile update falls back field by field and never clears a string;
- pagination arithmetic, and a round trip from the page the client asks for to the page the server lists;
- the three booking groups partition the list;
- the skill counts add up;
- the tag and notification lists stay duplicate-free.

## Model

| member | source | states |
|---|---|---|
| Relay.AddFalsy | server/index.js:47-51 | registering a falsy user id leaves the registry unchanged |
| Relay.AddRegistered | server/index.js:48 | registering an already registered id changes nothing, so `getUser` still finds the first socket |
| Relay.AddFresh | server/index.js:47-51 | otherwise exactly the new pair is appended at the end, and `getUser` then finds it |
| Relay.AddKeepsUnique | server/index.js:47-51 | `addUser` keeps every id truthy and no id registered twice |
| Relay.RemoveKeepsOrder | server/index.js:53-55 | `removeUser` keeps the remaining entries in their order |
| Relay.Remove | server/index.js:53-55 | the result holds exactly the entries not on the socket |
| Relay.RemoveAbsent | server/index.js:53-55 | removing a socket nobody is on changes nothing |
| Relay.RemoveIdempotent | server/index.js:53-55 | removing a socket twice is the same as removing it once |
| Relay.RemoveKeepsUnique | server/index.js:53-55 | `removeUser` preserves the registry invariant |
| Relay.Find | server/index.js:57-59 | `getUser` gives nothing exactly when the id is unregistered, else the first entry with that id |
| Relay.FindPastUnregistered | server/index.js:57-59 | `find` skips a prefix holding no entry for the id |
| Relay.DisconnectForgets | server/index.js:107-110 | after a disconnect, a user who was on that socket is not found, and nothing found is on it |
| Relay.SendSavesBeforeBroadcast | server/index.js:75-93 | the message is saved first, then broadcast to the booking's room except the sender's socket; nothing is emitted if the save fails |
| Relay.SendNotifiesOnlyRegistered | server/index.js:95-101 | `newMessageNotification` goes out exactly when the message was saved, the receiver is registered and the sender is found, on the socket `getUser` finds, after the broadcast |
| Relay.Relay.AddUser | server/index.js:65-68 | the handler applies `addUser` and keeps the registry invariant |
| Relay.Relay.SendMessage | server/index.js:75-105 | the handler appends the effects of `sendMessage` in order and stores the saved message |
| Relay.Relay.RemoveUser | server/index.js:53-55 | the registry loses exactly the entries on the socket and keeps its invariant |
| Relay.Relay.Disconnect | server/index.js:107-110 | the handler removes the socket and leaves no entry on it |
| BookingModel.NewBooking | server/models/Booking.js:5-38 | a new booking is pending and unreviewed, with the given parties, date and slot |
| BookingModel.ParseStatusName | server/models/Booking.js:26-31 | the four status names and the status enum correspond one to one |
| BookingController.CreateFixesParties | server/controllers/bookingController.js:10-22 | a booking is saved exactly when `mentorId`, `sessionDate` and `sessionTimeSlot` are truthy; it has the requester as mentee, the body's mentor, and starts pending; otherwise 500 |
| BookingController.NoticeOnlyToOnlineMentor | server/controllers/bookingController.js:29-44 | `newBookingRequest` is emitted exactly when the booking was saved and the mentor is online, once, to the mentor's socket; the reply does not depend on it |
| BookingController.CreateBooking | server/controllers/bookingController.js:6-54 | the handler stores the booking under the new id only on success and emits the notice |
| BookingController.MyBookingsExactly | server/controllers/bookingController.js:59-73 | the documents sent are exactly the user's bookings as mentee or mentor, with the stored status and only name and email of each party |
| BookingController.MyBookingsAreUpdatable | server/controllers/bookingController.js:63-65 | a booking is listed for a user exactly when that user passes the permission check of the status update |
| BookingController.UpdateGuards | server/controllers/bookingController.js:78-113 | 404 exactly for an unknown booking, 401 exactly for a non-participant, 500 exactly for an invalid or missing status, 200 otherwise |
| BookingController.UpdateAnyTransition | server/controllers/bookingController.js:100-108 | either participant may set any status from any status |
| BookingController.UpdateOnlyStatus | server/controllers/bookingController.js:106-108 | a successful update changes the status only, to the requested one, and keeps the store well formed |
| BookingController.UpdateBookingStatus | server/controllers/bookingController.js:78-113 | the handler stores the updated booking on success and changes nothing on failure |
| ReviewController.ReviewGuardOrder | server/controllers/reviewController.js:12-40 | each failure is decided by the first failing guard: 404, then 401, then 400 not completed, then 400 already reviewed, then 500 for a rating outside the schema |
| ReviewController.MentorCannotReview | server/controllers/reviewController.js:19-22 | the booking's mentor is refused with 401 |
| ReviewController.ReviewCopiesParties | server/controllers/reviewController.js:34-40 | a created review refers to the requested booking, copies its mentor, has the requester as mentee and the requested in-range rating |
| ReviewController.ReviewOnce | server/controllers/reviewController.js:29-45 | after a review the store stays consistent, the booking has exactly one review, and reviewing it again fails (400 for its mentee) |
| ReviewController.CreateReview | server/controllers/reviewController.js:8-50 | the handler adds the review and flags the booking on success, and leaves both stores unchanged on any failure |
| ReviewController.MentorReviewsAreOwnBookings | server/controllers/reviewController.js:55-61 | the reviews listed for a mentor are exactly those naming the mentor; each rates one of the mentor's bookings, by its mentee, 1 to 5, one per booking |
| Store.AtMostOneReview | server/models/Review.js:5-10 | in a consistent store a booking has at most one review |
| UserModel.NewUser | server/models/User.js:7-50 | a new account has role mentee and provider credentials unless given, empty avatar, bio, title and links, and empty lists |
| UserController.MergeStrings | server/controllers/userController.js:25-28 | name, title, bio and avatar take a truthy body value and otherwise keep the old one, so `""` never clears them |
| UserController.MergeLinks | server/controllers/userController.js:30-38 | the links are touched only when `socialLinks` is given, each with the same fallback |
| UserController.MergeByRole | server/controllers/userController.js:40-46 | a mentor's expertise and availability take any given list, even an empty one, and the learning goals stay; a mentee's learning goals do the same |
| UserController.MergeKeepsAccount | server/controllers/userController.js:24-48 | id, email, password, provider and role are never changed, and a valid user stays valid |
| UserController.MergeIdempotent | server/controllers/userController.js:24-46 | sending the same body twice is the same as sending it once |
| UserController.MergeOwnBody | server/controllers/userController.js:24-46 | sending back a user's own fields leaves the user unchanged |
| UserController.UpdateUserProfile | server/controllers/userController.js:19-53 | the handler stores the merged profile, or replies 404 and changes nothing |
| UserController.PagingDefaults | server/controllers/userController.js:60-61 | an absent, null, blank or `"0"` parameter, or one holding a character that no text `Number` accepts can contain, gives page 1 and limit 9 |
| Js.ToNumberNaN | server/controllers/userController.js:60-61 | a text holding a character that is not a digit, whitespace, sign, `.`, hexadecimal digit, radix or exponent letter, or letter of `Infinity` reads as `NaN` |
| UserController.PageParamRoundTrip | server/controllers/userController.js:60-61 | a positive number up to `Number.MAX_SAFE_INTEGER` sent as decimal text is read back as itself |
| UserController.LimitOf | server/controllers/userController.js:61 | the limit is never 0 |
| UserController.TotalPagesIsCeiling | server/controllers/userController.js:91 | with a positive limit, `totalPages` is the least page count that holds every match |
| UserController.PageContents | server/controllers/userController.js:60-94 | for page at least 1 and positive limit, the reply succeeds exactly when the patterns compile, and then lists at most `limit` matches starting at `(page - 1) * limit` and reports page, count and page count |
| UserController.EveryMatchOnItsPage | server/controllers/userController.js:62-91 | every match appears on page `i / limit + 1`, within `totalPages`, at position `i % limit`, and no other page's window holds it |
| UserController.ListingFailures | server/controllers/userController.js:62-98 | the reply is 500 "Server Error" exactly when a `search` or `skill` pattern does not compile or `skip` is negative |
| UserController.QueryFilters | server/controllers/userController.js:68-78 | the name filter is there exactly for a truthy `search`, the skill filter exactly for a truthy `skill`, and the matches are all matching mentors in collection order |
| UserController.MentorByIdOnlyMentors | server/controllers/userController.js:104-114 | a profile is served exactly for a stored mentor, with the mentor's id, role and expertise |
| UserController.ListedMentorsResolve | server/controllers/userController.js:84-114 | every mentor a listing shows can be opened by id |
| ClientBookings.GroupsPartition | client/app/dashboard/my-bookings/page.tsx:150-157 | every booking is in exactly one of pending, upcoming and past, the group sizes add up to the total, and each group keeps the fetched order |
| ClientBookings.WithStatusKeepsOrder | client/app/dashboard/my-bookings/page.tsx:151-155 | a status filter keeps the list order |
| ClientBookings.WithStatus | client/app/dashboard/my-bookings/page.tsx:151-155 | the filter keeps exactly the bookings with one of the statuses |
| MyBookings.ActionsByGroup | client/app/dashboard/my-bookings/page.tsx:208-349 | Confirm and Reject only on pending bookings and only for a mentor, Chat and Mark as Complete only on confirmed ones, Summarize only on completed ones |
| MyBookings.ActionsRequestOrLink | client/app/dashboard/my-bookings/page.tsx:128-349 | a control either requests confirmed, rejected or completed, or links to the booking's chat or summary |
| MyBookings.ParticipantRequestAccepted | client/app/dashboard/my-bookings/page.tsx:137-141 | every status a participant can request from a card is accepted by the server, which changes only the status |
| MyBookings.MenteeMayComplete | client/app/dashboard/my-bookings/page.tsx:285-288 | a mentee is offered Mark as Complete and the server accepts it |
| MyBookings.MyBookingsPage.HandleUpdateStatus | client/app/dashboard/my-bookings/page.tsx:128-147 | nothing happens without a session; otherwise the request is logged (never `pending`); on success the toast shows and the refetch decides list, error and toast; on failure only the failure toast |
| MyBookings.MyBookingsPage.FetchBookings | client/app/dashboard/my-bookings/page.tsx:102-120 | a reply replaces the list, a failure sets the error and shows it as a toast, and loading ends |
| MentorDashboard.QuickViewFirstPending | client/components/dashboard/MentorDashboard.tsx:112-194 | the quick view shows the first three pending requests in order, or all of them when there are fewer |
| MentorDashboard.ReplaceInPlace | client/components/dashboard/MentorDashboard.tsx:128-130 | the replacement keeps length and order, puts the server copy where the id matches and leaves every other entry unchanged (the whole list when the id is absent) |
| MentorDashboard.ReplaceIdempotent | client/components/dashboard/MentorDashboard.tsx:128-130 | replacing twice with the same copy is replacing once |
| MentorDashboard.AnsweredLeavesPending | client/components/dashboard/MentorDashboard.tsx:112-130 | a confirmed or rejected request leaves the pending list and every other pending request stays |
| MentorDashboard.ServerCopyAnswers | client/components/dashboard/MentorDashboard.tsx:123-130 | the copy the server returns has the booking's id and the requested status, so the booking leaves the pending list |
| MentorDashboard.MentorDashboard.FetchBookings | client/components/dashboard/MentorDashboard.tsx:90-110 | nothing happens without a session; a reply replaces the list; a failure keeps it and shows the load error; loading ends |
| MentorDashboard.MentorDashboard.HandleUpdateStatus | client/components/dashboard/MentorDashboard.tsx:115-135 | only confirmed or rejected is requested; on success the copy replaces the booking, on failure the list is unchanged; a toast either way |
| MenteeDashboard.GetSkillData | client/components/dashboard/MenteeDashboard.tsx:20-33 | the nested loops over a `Map` compute exactly the skill list of `SkillData` |
| MenteeDashboard.SkillDataCounts | client/components/dashboard/MenteeDashboard.tsx:21-32 | each skill is listed once, in first-occurrence order, with its number of occurrences; every skill is listed; counts add up to the number of expertise entries |
| MenteeDashboard.NoExpertiseNoSkills | client/components/dashboard/MenteeDashboard.tsx:23 | a booking without a populated mentor expertise list contributes nothing |
| MenteeDashboard.ChartOnlyCompleted | client/components/dashboard/MenteeDashboard.tsx:77-80 | every charted skill belongs to the mentor of a completed booking |
| MenteeDashboard.ChartEmptyForServerBookings | client/components/dashboard/MenteeDashboard.tsx:77-80 | fed with what `getMyBookings` sends (mentor name and email only), the chart is empty |
| MenteeDashboard.NextSessionIsFirstConfirmed | client/components/dashboard/MenteeDashboard.tsx:76-120 | the next session is the first confirmed booking in list order, and exists exactly when some booking is confirmed |
| FindMentor.ParamsSent | client/app/dashboard/find-mentor/page.tsx:62-66 | requests carry `page` and `limit=9` always, `search` and `skill` exactly when non-empty |
| FindMentor.ServerReadsRequest | client/app/dashboard/find-mentor/page.tsx:62-72 | for a page from 1 to `Number.MAX_SAFE_INTEGER`, the server lists exactly that page, nine per page, under the page's filters |
| FindMentor.ShownPageInRange | client/app/dashboard/find-mentor/page.tsx:74-184 | the server's reply to such a request fails exactly when a typed filter is not a valid pattern; otherwise it is that page, and when it lists a mentor the page lies in `1..totalPages` |
| FindMentor.ButtonsMatchGuard | client/app/dashboard/find-mentor/page.tsx:109-217 | on a page in range, Prev and Next are enabled exactly when `handlePageChange` accepts their target |
| FindMentor.FindMentorPage.HandlePageChange | client/app/dashboard/find-mentor/page.tsx:109-115 | a page outside `1..totalPages` changes nothing; otherwise that page is fetched with the stored filters, and mentors, page, total and error come from the reply or the failure, with loading ended |
| FindMentor.FindMentorPage.HandleSearch | client/app/dashboard/find-mentor/page.tsx:96-106 | the filters are stored, the page resets to 1 and page 1 is fetched; mentors, page, total and error come from the reply or the failure, with loading ended |
| FindMentor.FindMentorPage.FetchMentors | client/app/dashboard/find-mentor/page.tsx:58-86 | the request is logged; on success mentors, page and total come from the reply and the error is cleared; on failure the error is set |
| FindMentor.FindMentorPage.Mount | client/app/dashboard/find-mentor/page.tsx:89-91 | the first request is page 1 with no filters; mentors, page, total and error come from the reply or the failure, with loading ended |
| ProfilePage.KeyDownEffect | client/app/dashboard/profile/page.tsx:52-60 | Enter on non-blank input adds the trimmed text once and clears the input even for a duplicate; anything else changes nothing |
| ProfilePage.KeyDownKeepsDistinct | client/app/dashboard/profile/page.tsx:55-56 | a duplicate-free tag list stays duplicate-free, and an added tag is already trimmed |
| ProfilePage.Without | client/app/dashboard/profile/page.tsx:62-64 | removing a tag leaves exactly the other tags |
| ProfilePage.WithoutKeepsOrder | client/app/dashboard/profile/page.tsx:62-64 | removing a tag keeps the others in order and keeps the list duplicate-free |
| ProfilePage.RemoveUndoesAdd | client/app/dashboard/profile/page.tsx:52-64 | removing a tag just added by Enter gives back the list before it |
| ProfilePage.TagInput.HandleKeyDown | client/app/dashboard/profile/page.tsx:52-60 | the handler computes `KeyDown` on any tag list, and a duplicate-free list stays duplicate-free |
| ProfilePage.TagInput.RemoveTag | client/app/dashboard/profile/page.tsx:62-64 | the tags become `Without` the removed one, on any list, and a duplicate-free list stays duplicate-free |
| ProfilePage.DefaultLinksKeepStored | client/app/dashboard/profile/page.tsx:168-192 | the empty links the page puts in for a reply without `socialLinks` never reach the store: saving such a profile keeps the stored links, while non-empty links from the reply are stored as they are |
| ProfilePage.ProfileEditor.FetchProfile | client/app/dashboard/profile/page.tsx:157-180 | nothing happens without a session; a reply becomes the profile with default links filled in; a failure shows the load error; loading ends |
| ProfilePage.ProfileEditor.HandleSave | client/app/dashboard/profile/page.tsx:182-207 | the whole profile is sent as the body; the server's reply becomes the profile with the success toast, or the profile stays with the failure toast |
| ProfilePage.SaveUnchanged | client/app/dashboard/profile/page.tsx:182-192 | loading a profile and saving it unedited leaves the stored user as it was |
| ProfilePage.AvatarSaveChangesOnlyAvatar | client/app/dashboard/profile/page.tsx:231-238 | the save after an upload changes only the stored avatar, to the uploaded URL (an empty URL changes nothing) |
| ProfilePage.ProfileEditor.HandleAvatarUpload | client/app/dashboard/profile/page.tsx:209-248 | with no file nothing happens; a failed upload shows an error; otherwise the profile with only the avatar replaced is shown and saved, and the save's outcome decides the profile and the last toast |
| Initials.GetInitialsMeaning | client/app/dashboard/profile/page.tsx:97-104 | a falsy name gives `"?"`; otherwise the result is the uppercased first letter of every space-separated word |
| Initials.FirstCharsAreWordStarts | client/components/Sidebar.tsx:14-18 | taking the first character of each piece of a split on spaces picks out exactly the word starts |
| Sidebar.RecordedAppendsOnce | client/components/Sidebar.tsx:50 | on a duplicate-free list, a known booking id changes nothing and a new one is appended |
| Sidebar.Sidebar.HandleNotification | client/components/Sidebar.tsx:42-53 | a notification is recorded and announced by a toast only when the current path does not contain its booking id |
| Sidebar.Sidebar.ClickLink | client/components/Sidebar.tsx:103-115 | following the bookings link clears the unread list, and any other link keeps it |
| Sidebar.BadgeAfterNotification | client/components/Sidebar.tsx:50-106 | after recording a notification the list is non-empty and holds its booking id, so the bookings link shows the dot |
| Sidebar.LinksByRole | client/components/Sidebar.tsx:60-95 | only non-mentors get the mentor search link, both roles get one bookings link, and no link appears twice |
| MentorCard.BadgesFirstThree | client/components/MentorCard.tsx:49-64 | at most the first three skills are shown, in order; "No expertise listed." shows exactly when there is nothing to show |
| MentorCard.HrefNamesMentor | client/components/MentorCard.tsx:22 | the card links to `/dashboard/mentor/` followed by the mentor's id |
| MentorCard.CardInitialsNoFallback | client/components/MentorCard.tsx:29-33 | for every name the card shows the uppercased first letter of each word, and it differs from the sidebar's initials exactly for the empty name, where the sidebar shows `"?"` |
| ReviewModal.HighlightsPrefix | client/components/ReviewModal.tsx:44-51 | the highlighted stars are the first `rating` ones |
| ReviewModal.SubmittedRatingAccepted | client/components/ReviewModal.tsx:25-29 | any rating the dialog submits is one the review schema accepts |
| ReviewModal.ReviewModal.HandleSubmit | client/components/ReviewModal.tsx:23-30 | with rating 0 only an alert is shown; otherwise `onSubmit` is called with the booking, rating 1 to 5 and the comment |
| ReviewModal.ReviewModal.ClickStar | client/components/ReviewModal.tsx:44-48 | clicking star `k` sets the rating to `k` |
| ToastContext.ToastProvider.ShowToast | client/context/ToastContext.tsx:36-38 | the one slot holds exactly the new toast |
| ToastContext.ToastProvider.CloseToast | client/context/ToastContext.tsx:40-42 | the slot is emptied |
| ToastContext.UseToast | client/context/ToastContext.tsx:20-25 | outside a provider the hook throws its message; inside it returns the provider's value |
| Js.ToNumberOfNat | server/controllers/userController.js:60-61 | `Number` reads the decimal text of a natural number up to `Number.MAX_SAFE_INTEGER` back as that number |
| Js.TrimEmptyIff | client/app/dashboard/profile/page.tsx:53 | `trim()` gives `""` exactly for a blank input |

## Left out

- Transport: the socket connection lifecycle, room joins and actual delivery are not modelled. The relay records what each handler emits, in order, as events.
- Concurrency: asynchronous interleaving between handlers and between requests is not modelled; each handler runs to completion.
- ReviewController.ReviewOnce: one review per booking holds only for requests that run one after another. `createReview` reads `hasBeenReviewed` and sets it only after `Review.create`, and `Review.booking` is not a unique index. Two overlapping requests for the same booking, such as a double submit, can both create a review. The same limit applies to `Store.AtMostOneReview`, whose store invariant such a pair would break.
- Database failures: a failing query or save is modelled only where the source handles it as a reply. The `sendMessage` save is a parameter (`saved`), because `server/models/Message.js` is not part of this model.
- Relay.Relay.SendMessage: the `sendMessage` listener is `async` and has no `try`/`catch`. A failed `message.save()`, or reading `.name` of a `null` sender from `User.findById`, rejects its promise, and nothing handles that rejection. On Node 15 and later an unhandled rejection stops the server process, and `onlineUsers` is lost with it. The model only skips the broadcast or the notification and keeps the registry.
- Mongoose mechanics are abstracted. The store is maps keyed by id. In `getMyBookings`, `populate` gives each party's id, name and email.
- The reply of `getReviewsForMentor` is modelled as the set of matching review ids (`ReviewController.ReviewsForMentor`). Its `populate('mentee', 'name avatar')` of each review's mentee and the order of the reviews it sends are not modelled.
- Listing order: in `getAllMentors`, `find` returns the collection in its natural order, given as a sequence; `countDocuments` is the number of matches.
- BookingController.GetMyBookings: the reply is modelled as the set of matching bookings, so its order is not modelled. The client pages take the list in whatever order it arrives.
- `$regex` matching with option `i` is the parameter `matches`, and whether a text compiles as a pattern is the parameter `valid`.
- Mongo's `.skip` with a negative value is modelled as an error reply (500), and a negative `.limit` as its absolute value.
- ObjectId casts are not modelled: an id that is not an ObjectId makes `findById` throw (500), and the model treats every id as a plain string key.
- `sessionDate` is kept as the text sent; the cast to `Date` and date formatting are left out.
- Timestamps (`createdAt`) are a parameter of the chat handler and absent elsewhere.
- Js.ToNumberOfNat, UserController.PageParamRoundTrip, FindMentor.ServerReadsRequest: the model's numbers are exact, unbounded integers. These lemmas are stated only up to `Number.MAX_SAFE_INTEGER`, because above it a double rounds the integer, and `toString()` writes `1e+21` and larger in exponent form.
- `Number(...)` is modelled for integer text with an optional sign and surrounding whitespace. Fractions, exponents, hexadecimal and `Infinity` read as `NaN` here. `Js.ToNumberNaN` and `UserController.PagingDefaults` are stated only for texts with a character none of those forms contains, so they hold of `Number` itself.
- Floating-point ratings are left out: Mongoose accepts 4.5, and the model accepts integers only. A rating sent as a string is not cast.
- Strings are sequences of characters. `toUpperCase` maps ASCII letters only, and `n[0]` takes one code unit.
- The query string is a list of key/value pairs, without percent-encoding.
- `getUserProfile` (server/controllers/userController.js:8-14) is not modelled; the profile page's load reply is the `Fetched` parameter.
- The reply of `updateUserProfile` includes the password hash; the model's reply is the whole `User`, and the hash is not treated separately.
- The `else` branch of `createReview` (server/controllers/reviewController.js:46-49) cannot be reached, because `Review.create` either returns a document or throws.
- `express-async-handler` hands a thrown error to Express, which answers with the status already set, or 500. A rating rejected by the schema therefore gives 500.
- Authentication, JWT, next-auth sessions, the AI summary, avatar storage and chat history are outside the core. The session is a boolean parameter, and the session refresh after a profile save is omitted.
- The MenteeDashboard load (`fetchBookings`) matches the MentorDashboard load, which is modelled as `MentorDashboard.MentorDashboard.FetchBookings`; it is not repeated.
- MyBookings.MyBookingsPage.HandleUpdateStatus: the refetch after a successful update is not awaited in the source; the model runs it straight after the success toast.
- Initials.GetInitialsMeaning: `"?"` is stated only for a falsy name. A truthy name can also give `"?"` (the name `"?"` itself), so the converse does not hold.
- ProfilePage.ProfileEditor.HandleAvatarUpload: an upload reply without `imageUrl` is not modelled; the upload result is either a URL or a failure.
- Rendering, styling, skeletons, timers and the toast auto-close are left out.
