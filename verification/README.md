# Community app view logic, modelled in Dafny

The application is a social-community web client: people follow groups, read
and write posts and comments, and keep a shared calendar of group events. Its
components are thin views over a hosted backend (auth, tables, storage,
realtime feeds). Inside the components, though, are small rules that decide
what to store and what to show. This project states those rules in Dafny and
proves what they promise. Every backend answer is an input of the model: a
query's rows or its error, the posts table as a sequence, the outcome of a
write, a confirm dialog or a code exchange as a boolean.

One module per source file:

- `UnreadCounter` (`app/components/NavbarSub.tsx`) keeps a map from followed
  group to unread-post count, and has three operations on it:
  - a full recompute from the read-status rows and the post counts;
  - mark-as-read, which zeroes one entry;
  - a realtime insert, which adds one to an entry.

  The count query is a set comprehension over the posts table: same group,
  another author, newer than the last read. The backend's count is tied to
  it by `CountIsCardinality`. The recompute zeroes groups the user owns, but
  the realtime increment does not check ownership. This asymmetry is kept
  and stated by `OwnedGroupAsymmetry`.
- `GroupCalendar` (`app/components/GroupCalendar.tsx`) covers:
  - day matching for events, at millisecond level and at day level;
  - tile classes and badges;
  - the calendar's state handlers.
- `AddEventModal` (`app/components/AddEventModal.tsx`) covers:
  - the datetime-local conversion;
  - the submit decision, whose field check comes before the user check;
  - the insert or update write;
  - the form reset.
- `CommentModal` models both `app/components/ProfileCommentModal.tsx` and
  `app/components/DashboardCommentModal.tsx`. Their logic is the same, so it
  is written once. The Dashboard copy's lines are: avatar URL 40-46, fallback
  user 75-79, submit 89-118, displayed name 169. The submit is split at the
  awaited insert into `StartSubmit` and `CompleteSubmit`, so the guard against
  a second submit while one is in flight is visible.
- `ScrollDirection` (`lib/hooks/useScrollDirection.ts`), `AuthCallback`
  (`app/auth/callback/route.ts`), `LandingCarousel` (`app/page.tsx`) and
  `PostFeed` (`app/components/PostFeed.tsx`) model the small helpers.
- `Basics` holds what several modules share:
  - nullable values;
  - JavaScript truthiness of strings (`||`, `if (s)`);
  - ECMAScript `trim`;
  - decimal rendering of counts, proved to round-trip.

Timestamps and days are integers. A timestamp counts milliseconds of local
time, and its day is `t / 86400000`. `new Date(s).toISOString()` is a
function parameter `toIso`. The storage's public URL is a function parameter
`publicUrl`.

`NavbarSub.Recompute` and `FetchUnreadCounts` require that two followed groups
with the same id have the same owner (`OwnersAgree`). Group ids are keys, so
this always holds. Without it, the map could not satisfy a per-group
statement.

## Model

| member | source | states |
|---|---|---|
| `Basics.DecimalText` | app/components/NavbarSub.tsx:319 | A rendered count is a numeral of digits with no leading zero; it is one character below 10 and at most two below 100 |
| `Basics.DecimalRoundTrip` | app/components/NavbarSub.tsx:319 | Reading the rendered numeral back gives the count it was rendered from |
| `Basics.DecimalTextInjective` | app/components/GroupCalendar.tsx:233 | Different counts are rendered as different labels |
| `Basics.Trim` | app/components/ProfileCommentModal.tsx:81 | `trim()` cuts only white space from both ends and leaves a contiguous piece that neither starts nor ends with white space |
| `Basics.TrimEmptyIffBlank` | app/components/ProfileCommentModal.tsx:81 | A text trims to "" exactly when every character is white space |
| `UnreadCounter.FirstReadAt` | app/components/NavbarSub.tsx:104-105 | `find` gives the last-read time of the first row for the group, and nothing exactly when no row has that group |
| `UnreadCounter.LastReadAt` | app/components/NavbarSub.tsx:91-105 | A failed read-status query (null data) gives no last-read time for any group; otherwise the first matching row's time |
| `UnreadCounter.CountIsCardinalityBelow` | app/components/NavbarSub.tsx:108-117 | Over any prefix of the posts table, the reported count equals the size of the set of selected rows |
| `UnreadCounter.CountIsCardinality` | app/components/NavbarSub.tsx:108-117 | The count query's result is the number of posts of that group by another author and, when a last-read time exists, created after it |
| `UnreadCounter.OwnPostsNeverCounted` | app/components/NavbarSub.tsx:112 | If every post of a group is the user's own, its count is 0 |
| `UnreadCounter.FetchUnreadCounts` | app/components/NavbarSub.tsx:100-132 | The loop builds a map keyed by exactly the followed groups. Each entry is 0 on query error, 0 when the group's page is open or the user owns it, otherwise the unread-row count |
| `UnreadCounter.AfterInsert` | app/components/NavbarSub.tsx:151-167 | A realtime insert by the user, into an unfollowed group, or into the open group changes nothing. Any other adds exactly 1 to that group (a missing entry counts as 0) and leaves every other entry as it was; ownership is not checked |
| `UnreadCounter.OwnedGroupAsymmetry` | app/components/NavbarSub.tsx:125-167 | For a group the user owns, the recompute stores 0 but a realtime insert by someone else still raises the count to at least 1 |
| `UnreadCounter.DisplayedCount` | app/components/NavbarSub.tsx:267 | A group without an entry displays 0; otherwise its entry |
| `UnreadCounter.BadgeText` | app/components/NavbarSub.tsx:309-320 | No badge exactly when the count is 0. The badge reads "99+" exactly when the count exceeds 99; otherwise it is a one- or two-digit numeral without a leading zero, denoting the count |
| `UnreadCounter.NavbarSub.constructor` | app/components/NavbarSub.tsx:46-47 | The counter starts with no user and an empty map |
| `UnreadCounter.NavbarSub.SessionLoaded` | app/components/NavbarSub.tsx:54-56 | The user id is the session's id, or null when that is missing or empty |
| `UnreadCounter.NavbarSub.MarkGroupAsRead` | app/components/NavbarSub.tsx:60-81 | Without a user nothing happens and no upsert is issued. With one, the upsert is issued, that group's count becomes 0 and every other entry is unchanged |
| `UnreadCounter.NavbarSub.Recompute` | app/components/NavbarSub.tsx:84-137 | With no followed groups or no user the map is unchanged. Otherwise the whole map is replaced by the loop's result |
| `UnreadCounter.NavbarSub.OnPostInserted` | app/components/NavbarSub.tsx:86-168 | The listener exists only while there is a user and at least one followed group: it is subscribed after the effect's guard at line 86. It then updates the map exactly as `AfterInsert` says |
| `UnreadCounter.NavbarSub.Badge` | app/components/NavbarSub.tsx:266-321 | A followed group shows a badge exactly when it has an entry greater than 0 |
| `GroupCalendar.StartOfDay` | app/components/GroupCalendar.tsx:107 | `setHours(0,0,0,0)` gives the first millisecond of the same day, at or before the time: it is on the same day and the millisecond before it is on an earlier day |
| `GroupCalendar.EndOfDay` | app/components/GroupCalendar.tsx:109 | `setHours(23,59,59,999)` gives the last millisecond of the same day, at or after the time: it is on the same day and the millisecond after it is on a later day |
| `GroupCalendar.OnDayIffWithinDays` | app/components/GroupCalendar.tsx:99-113 | An event matches a date exactly when start day ≤ that day ≤ end day, with time of day ignored. An event whose end day comes before its start day matches no day; one ending earlier on its start day still matches that day |
| `GroupCalendar.EventsForDay` | app/components/GroupCalendar.tsx:99-115 | The result holds exactly the events that match the day, each as many times as in `events` and none other, as a subsequence of `events` in their original order |
| `GroupCalendar.CountIsLengthOfDayEvents` | app/components/GroupCalendar.tsx:118-131 | `getEventCountForDay` equals the length of `getEventsForDay` |
| `GroupCalendar.TileClassName` | app/components/GroupCalendar.tsx:201-213 | A tile on the selected day is "selected-day" whatever its count. Otherwise: no class for 0, "event-day-1" exactly for 1, "event-day-2" exactly for 2, "event-day-3plus" exactly for 3 or more |
| `GroupCalendar.TileContent` | app/components/GroupCalendar.tsx:215-238 | No badge outside the month view or on a day with no events. Otherwise the colour index is min(count-1, 2), always in 0..2, with its colour class; the text is "9+" exactly above 9, else the count's digit |
| `GroupCalendar.QueryErrorText` | app/components/GroupCalendar.tsx:80 | A query error shows its message, or "Server responded with status N" when the message is empty |
| `GroupCalendar.Calendar.constructor` | app/components/GroupCalendar.tsx:39-52 | The calendar starts on today, with no events, no error, and the detail view closed and empty |
| `GroupCalendar.Calendar.FetchEvents` | app/components/GroupCalendar.tsx:65-91 | Loading ends false after any answer. Rows replace the events (null as none) and clear the error. A query error empties the events and records its message. A thrown error records its message and keeps the events |
| `GroupCalendar.Calendar.HandleDateChange` | app/components/GroupCalendar.tsx:136-144 | A date is selected. A range selects its first end if that is a date. Null, or a range starting with null, leaves the selection unchanged |
| `GroupCalendar.Calendar.HandleDayClick` | app/components/GroupCalendar.tsx:147-153 | The day is selected, the detail list becomes that day's events, the chosen event is cleared and the detail view opens |
| `GroupCalendar.Calendar.HandleDeleteEvent` | app/components/GroupCalendar.tsx:156-173 | A declined confirm issues no delete and changes nothing. A failed delete alerts with its message or the fallback, and changes nothing else. A successful one closes the detail view and applies the refetch's answer |
| `AddEventModal.ToLocalDatetime` | app/components/AddEventModal.tsx:37-41 | A missing or empty input gives "". Otherwise the result is a prefix of the ISO string: its first 16 characters, or all of it when shorter |
| `AddEventModal.StoredDescription` | app/components/AddEventModal.tsx:87 | An empty description is stored as null; any other is stored as it is |
| `AddEventModal.PlanSubmit` | app/components/AddEventModal.tsx:64-110 | An empty title, start or end gives "fill all fields", before the user is checked. Complete fields without a user give "user not found". Otherwise exactly one write: an update of the edited event's id, or an insert with the group and user. Both carry the title, the stored description and the ISO times. End before start is accepted |
| `AddEventModal.SubmitLabel` | app/components/AddEventModal.tsx:248-252 | The button reads "saving" while loading, "save changes" when editing, and "save event" otherwise |
| `AddEventModal.EventForm.constructor` | app/components/AddEventModal.tsx:44-56 | The form starts loaded from the edited event, or blank without one, with no error, no success and not loading |
| `AddEventModal.EventForm.Reset` | app/components/AddEventModal.tsx:126-141 | Without an edited event all four fields become "". With one they load from it: a null description becomes "" and the times are converted |
| `AddEventModal.EventForm.Submit` | app/components/AddEventModal.tsx:59-123 | A rejected form sets its error and issues no write. An accepted one issues the planned write and ends not loading. Success is set only when the write has no error; a write error shows its message or the fallback |
| `CommentModal.AvatarPublicUrl` | app/components/ProfileCommentModal.tsx:37-43 | An empty path gives the placeholder. An http(s) URL is returned as it is. Otherwise the result is the storage URL, or the placeholder if that is empty; it is never empty |
| `CommentModal.SafeComments` | app/components/ProfileCommentModal.tsx:62-71 | Same length and order. Every comment gets a user: a null one becomes {id: user_id, null, null}, and a present one and every other field are kept |
| `CommentModal.DisplayName` | app/components/DashboardCommentModal.tsx:169 | The username if it is non-empty, otherwise "Unnamed User" |
| `CommentModal.CanSubmitIffNotBlank` | app/components/DashboardCommentModal.tsx:92 | A submit goes ahead exactly when none is in flight and the text is not all white space |
| `CommentModal.CommentModal.constructor` | app/components/ProfileCommentModal.tsx:47-50 | The modal starts loading, with no comments, empty text and no submit in flight |
| `CommentModal.CommentModal.CommentsLoaded` | app/components/DashboardCommentModal.tsx:64-86 | Loaded rows replace the list after the fallback-user mapping; null data keeps it; loading ends |
| `CommentModal.CommentModal.EditText` | app/components/ProfileCommentModal.tsx:177 | Typing replaces the comment text |
| `CommentModal.CommentModal.StartSubmit` | app/components/ProfileCommentModal.tsx:78-90 | Blank text or a submit in flight sends nothing and changes nothing. Otherwise the trimmed text is sent for this post and user, and the modal is marked as submitting |
| `CommentModal.CommentModal.CompleteSubmit` | app/components/DashboardCommentModal.tsx:104-118 | On success exactly one comment is appended at the end, the text is cleared and the parent's count update is called once for the post. On failure the list and text are unchanged and an alert is raised. The submit ends either way |
| `ScrollDirection.ScrollTracker.constructor` | lib/hooks/useScrollDirection.ts:8-9 | The hook starts "scrolling up" at position 0 |
| `ScrollDirection.ScrollTracker.HandleScroll` | lib/hooks/useScrollDirection.ts:12-25 | Scrolling up is reported exactly when the new `scrollY` is smaller than the previous one; an equal one counts as down. The position is remembered |
| `AuthCallback.NextPath` | app/auth/callback/route.ts:8 | A missing `next` becomes "/confirmEmail"; a present one, even empty, is kept |
| `AuthCallback.CallbackRedirect` | app/auth/callback/route.ts:5-42 | The exchange is attempted exactly when `code` is non-empty. The redirect always goes to origin + next. It carries "?status=success" exactly when the code is non-empty and the exchange succeeds, and "?status=error" in every other case |
| `AuthCallback.SuffixesDiffer` | app/auth/callback/route.ts:37-41 | The success and error targets of one base are distinct URLs, both starting with the base |
| `LandingCarousel.JsRemainder` | app/page.tsx:43 | The truncating remainder has the dividend's sign and magnitude |a| mod b: it is a mod b in [0, b) for a non-negative dividend, and -(-a mod b) in (-b, 0] for a negative one |
| `LandingCarousel.JsRemainderIsTruncatedDivision` | app/page.tsx:43 | The dividend equals b times the quotient truncated toward zero, plus the remainder |
| `LandingCarousel.NextSlide` | app/page.tsx:41-44 | A tick from a non-negative index stays in [0,3). It advances by one and wraps from 2 to 0 |
| `LandingCarousel.ThreeTicksComeBack` | app/page.tsx:43 | Three ticks bring every slide back to itself |
| `LandingCarousel.ExactlyOneActiveDot` | app/page.tsx:122-131 | For a valid index exactly one dot is active: the current slide's |
| `LandingCarousel.SlideOffsetPercent` | app/page.tsx:104 | The offset is the index times 100%, a multiple of 100 in 0..200 for valid indices |
| `LandingCarousel.Carousel.constructor` | app/page.tsx:36 | The slide index starts at 0 |
| `LandingCarousel.Carousel.Tick` | app/page.tsx:41-46 | Each tick applies `NextSlide` and keeps the index in [0,3) |
| `LandingCarousel.Carousel.ClickDot` | app/page.tsx:122-131 | Clicking dot i sets the index to i |
| `PostFeed.SafePosts` | app/components/PostFeed.tsx:71-83 | Same length and order. Missing media and comments become [], present ones are kept, and every other field is copied unchanged |
| `PostFeed.RenderFeed` | app/components/PostFeed.tsx:31-67 | An omitted or empty list renders the empty state, whose message is chosen by `isGroupOwner`, and no cards. Otherwise the cards are the sanitised posts |
| `PostFeed.OneCardPerPost` | app/components/PostFeed.tsx:89-99 | There is one card per post, keyed by the post's id, in the posts' order |

## Left out

- Backend calls are not modelled; their answers are inputs:
  - every query, upsert, insert, update and delete;
  - the storage's `getPublicUrl`;
  - the realtime `channel`, `subscribe` and `removeChannel`;
  - `exchangeCodeForSession`.

  The read-status query's `in`/`eq` filtering is assumed done: the rows
  passed in are the current user's. The events query's ordering by start time
  is the backend's.
- UnreadCounter.FetchUnreadCounts: a count query without error is taken to
  report a number. The `count ?? 0` fallback for a null count without an
  error is not modelled separately.
- Cookie plumbing in the callback route (app/auth/callback/route.ts:17-30)
  and the server client's setup.
- Timing and concurrency are not modelled:
  - the 1-second close timer of the event form;
  - the carousel's 4-second interval period;
  - re-registering the scroll listener;
  - races between the asynchronous recompute and realtime increments. Each
    operation is modelled as running to completion; the refetch after a
    delete is applied at once.
- Dates and clocks:
  - days are fixed spans of 86 400 000 ms of local time, so time zones and
    daylight-saving shifts are not modelled;
  - `toISOString` is the parameter `toIso`;
  - a date string that makes it throw (before the form's `try`) is not
    modelled;
  - `toLocale*` formatting and `toDateString` are replaced by comparing day
    numbers;
  - `last_read_at` is an integer, so a read-status row always has a last-read
    time.
- Browser UI is not modelled:
  - `document.body.style.overflow`;
  - window listeners;
  - JSX layout and styling;
  - the group bar's show/hide toggle;
  - the group avatars' images.

  `confirm` is a boolean input; `alert` is an output of the handler.
- Small calendar setters are not modelled: closing the detail view, choosing
  an event in it, and opening the add/edit form.
- PostFeed: comments carried by a post use the comment record of
  `CommentModal`. The shared `@/types/supabase` types are not part of this
  model. PostCard, the card component, is not part of this model.
- app/components/NavbarTop.tsx, next.config.ts, app/layout.tsx and the pages
  under app/(main) are not part of this model.
