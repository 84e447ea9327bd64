# Tutor availability and booking core, in Dafny

This project models the scheduling core of a tutoring web application. Tutors publish a
weekly template. The template is materialised into dated availability documents for a rolling
7-day horizon, and students book individual slots from those documents. The model covers:

- **Availability route** (`AvailabilityRoute`, `availability.dfy`). POST materialises the
  template for the 7 dates starting today. It merges with the documents already stored so
  that booked slots stay booked. GET lists a tutor's documents together with the tutor's
  education mode.
- **Bookings route** (`BookingsRoute`, `bookings.dfy`). POST parses the start time, derives
  the end time from the session type (50 minutes online, 80 offline), claims the first slot
  with the requested `(start, type)` and records a confirmed booking. GET joins each listed
  booking with the student's profile, falling back to placeholders.
- **Middleware** (`Middleware`, `middleware.dfy`). It decides whether a request passes, is
  refused (401 on API paths, a redirect on pages) or is forwarded with the caller's
  identity. Onboarding tokens are confined to the onboarding paths.
- **Booking calendar** (`CalendarView`, `calendar.dfy`). It holds the date scroller's selected
  index, finds the selected day's availability by date or by legacy weekday name, and builds
  the slot buttons.
- **UI selection helpers**: the tag editor (`TagInput`), the class-level picker
  (`ClassLevelSelect`), the subject picker with its category grouping (`SubjectSelect`) and
  the sidebar's role-based navigation (`Sidebar`).
- **Tutor search** (`TutorsRoute`, `tutors.dfy`). It filters tutors by date availability and
  by subject.

Shared pieces live in `Common` (option type, JavaScript truthiness, `filter`, `indexOf`, the
multi-select toggle), `Schedule` (slots, inventories, bookings, weekdays, the 7-day horizon,
`findIndex` over slots) and `TimeOfDay` (the `HH:mm` / `h:mm a` parsing and `HH:mm`
formatting of times of day).

The database is a value. The availability collection is a map from `(tutorId, date)` to the
stored document, and the bookings collection is a sequence in which a booking's id is its
position. Each route handler takes the collections in and hands the new ones back. Dates are
day numbers counted from 1970-01-01, and a time of day is a number of minutes after midnight.

Points where the code's behaviour is easy to misread:

- The availability POST does not enforce any capacity or mode policy. It copies the
  template's slots as given, whatever the day's mode (`close` included) and however many
  slots there are. The per-mode limits live only in the calendar editor page, which is not
  part of this model.
- The bookings POST parses the start time, and can answer 400, before it looks up the
  availability document.
- A re-materialised booked slot keeps `booked: true` but loses the `end` time the booking
  wrote. The merge rebuilds each slot from the template and copies back only the flag.

## Model

| member | source | states |
|---|---|---|
| Common.Filter | components/sidebar/sidebar.tsx:47 | `filter` never lengthens the list |
| Common.FilterMembers | components/sidebar/sidebar.tsx:47 | `filter` keeps only elements of the input that satisfy the predicate, and keeps every such element |
| Common.FilterAppend | components/sidebar/sidebar.tsx:47 | filtering distributes over concatenation, so the kept elements stay in input order |
| Common.FilterSnoc | components/ui/subject-select.tsx:51-56 | filtering a list extended by one element extends the result by that element exactly when it satisfies the predicate |
| Common.Remove | components/ui/tag-input.tsx:30-32 | removing a value drops every occurrence, keeps every other element, and leaves a list without it unchanged |
| Common.RemoveAppend | components/ui/tag-input.tsx:31 | removal distributes over concatenation, so the survivors keep their order |
| Common.RemoveNoDuplicates | components/ui/tag-input.tsx:31 | removing a tag keeps a duplicate-free list duplicate-free |
| Common.Toggle | components/ui/subject-select.tsx:42-48 | `toggleSubject`: the slug ends up selected iff it was not; a selected slug is removed as `filter` removes it (every occurrence, the rest in order); an absent slug is appended at the end |
| Common.ToggleTwice | components/ui/subject-select.tsx:42-48 | toggling an absent value twice restores the original selection |
| Common.ToggleNoDuplicates | components/ui/class-level-select.tsx:38-42 | toggling keeps a duplicate-free selection duplicate-free |
| Common.IndexOf | middleware.ts:34 | `indexOf` returns the first position of the character, or -1 exactly when it is absent |
| Schedule.Horizon | app/api/tutor/availability/route.ts:120-123 | the horizon has 7 consecutive dates starting today |
| Schedule.WeekdayOf | app/api/tutor/availability/route.ts:123-126 | the weekday of a day number, counted from Thursday 1970-01-01 (its use is stated by `HorizonCoversWeek`) |
| Schedule.HorizonCoversWeek | app/api/tutor/availability/route.ts:120-126 | the 7 horizon dates fall on 7 different weekdays, so each weekday occurs exactly once |
| Schedule.FindSlot | app/api/bookings/route.ts:81 | `findIndex` on `(start, type)`: -1 iff no slot has the key, otherwise the first slot with it |
| Schedule.FirstMatchUnique | app/api/bookings/route.ts:81 | the first slot with a key is unique |
| TimeOfDay.ParseNumber | app/api/bookings/route.ts:50 | a number parses iff it is one or two decimal digits, and its value is below 100 (its value is pinned by `NumberCanonical`) |
| TimeOfDay.ParseHHmm | app/api/bookings/route.ts:50 | an `HH:mm` parse is a time of day below 1440 minutes (its value is pinned by `ParseHHmmFields`) |
| TimeOfDay.ParseDayPeriod | app/api/bookings/route.ts:53 | the marker reads as AM iff it is `am` and as PM iff it is `pm`, in any letter case; nothing else is a marker |
| TimeOfDay.ParseHmmA | app/api/bookings/route.ts:53 | an `h:mm a` parse is a time of day, in the afternoon iff the marker is PM (its value is pinned by `ParseHmmAFields`) |
| TimeOfDay.ParseStartTime | app/api/bookings/route.ts:49-58 | `HH:mm` wins when it parses; the result is absent iff both formats fail |
| TimeOfDay.Pad2 | app/api/bookings/route.ts:61 | a two-digit zero-padded rendering that parses back to the number |
| TimeOfDay.FormatHHmm | app/api/bookings/route.ts:61 | `HH:mm` rendering is five characters with `:` in the middle |
| TimeOfDay.ParseFormatRoundTrip | app/api/bookings/route.ts:60-61 | parsing a rendered time gives the time back |
| TimeOfDay.FormatParseRoundTrip | app/api/bookings/route.ts:50-61 | a five-character `HH:mm` time that parses renders back exactly as written |
| TimeOfDay.Pad2OfParsed | app/api/bookings/route.ts:50-61 | a two-digit number renders back, zero-padded, exactly as written |
| TimeOfDay.Unpadded | app/api/bookings/route.ts:50-53 | a number below 100 written without zero padding parses back to itself |
| TimeOfDay.NumberCanonical | app/api/bookings/route.ts:50-53 | every number that parses is the plain or the zero-padded rendering of its value, so a one-digit field reads as its digit |
| TimeOfDay.ParseHHmmFields | app/api/bookings/route.ts:50 | `HH:mm` reads the fields before and after the first `:` as hour (at most 23) and minute (at most 59), giving hour × 60 + minute, and fails otherwise |
| TimeOfDay.ParseUnpaddedRoundTrip | app/api/bookings/route.ts:50 | a time written with an unpadded hour, such as `9:30`, reads back as itself |
| TimeOfDay.Hour12 | app/api/bookings/route.ts:53 | the 12-hour clock hour is 1 to 12 and agrees with the 24-hour hour modulo 12 |
| TimeOfDay.Format12 | app/api/bookings/route.ts:53 | the `h:mm a` rendering ends with the `AM` or `PM` marker |
| TimeOfDay.ParseHmmAFields | app/api/bookings/route.ts:53 | `h:mm a` reads the hour (1 to 12) before the first `:`, the minute up to the next space and the marker after it; 12 counts as 0 and PM adds twelve hours |
| TimeOfDay.Parse12RoundTrip | app/api/bookings/route.ts:53 | every time rendered as `h:mm a` reads back as itself; 12 AM is midnight and 12 PM noon |
| TimeOfDay.StartTimeFallback | app/api/bookings/route.ts:49-58 | an `h:mm a` start time fails the `HH:mm` reading and the fallback reads it back as the time it renders |
| AvailabilityRoute.FindTemplateDayFirst | app/api/tutor/availability/route.ts:126-128 | `find` by weekday: absent iff no template day has the weekday, otherwise the first one that does |
| AvailabilityRoute.FindTemplateDay | app/api/tutor/availability/route.ts:126-128 | `weeklyTemplate.find` by weekday (its contract is `FindTemplateDayFirst`) |
| AvailabilityRoute.Unbooked | app/api/tutor/availability/route.ts:147 | the template's slots, same keys and order, none booked and none with an end time |
| AvailabilityRoute.MergeSlot | app/api/tutor/availability/route.ts:151-157 | one slot of the merge: booked when the first old slot with its start and type was (its contract is `MergeSlots`) |
| AvailabilityRoute.MergeSlots | app/api/tutor/availability/route.ts:149-158 | the merge keeps the new slots' keys, order and end times; a slot is booked iff it was or the first old slot with its key was booked |
| AvailabilityRoute.DaySlots | app/api/tutor/availability/route.ts:147-158 | a materialised date's slots are the template's, each booked iff a previous document existed and its first slot with that key was booked |
| AvailabilityRoute.WasBookedAfterMerge | app/api/tutor/availability/route.ts:149-158 | after the merge, a template key's first slot is booked iff the old document's first slot with that key was |
| AvailabilityRoute.DaySlotsIdempotent | app/api/tutor/availability/route.ts:143-158 | merging again with the same template and the merged slots gives the same slots |
| AvailabilityRoute.RebuiltShape | app/api/tutor/availability/route.ts:143-164 | the rebuilt document has the template day's mode, the date's weekday and the template's slots in order, each booked iff the stored document's first slot with its key was |
| AvailabilityRoute.MaterializeDate | app/api/tutor/availability/route.ts:123-185 | one date of the POST loop: the date's document rebuilt when the template has its weekday, the store untouched otherwise (its contract is `MaterializeOne`) |
| AvailabilityRoute.Materialized | app/api/tutor/availability/route.ts:120-185 | the store after the first n dates of the loop (its contract is `MaterializedAt`) |
| AvailabilityRoute.CountCovered | app/api/tutor/availability/route.ts:120-188 | the number of saved documents: the horizon dates whose weekday the template has (its contract is `CountCoveredBound` and `CountCoveredComplete`) |
| AvailabilityRoute.MaterializedAt | app/api/tutor/availability/route.ts:120-185 | after the loop, each covered horizon date holds the template day rebuilt against the original document; every other document is unchanged and none is created |
| AvailabilityRoute.MaterializedDay | app/api/tutor/availability/route.ts:120-185 | a materialised date holds the template day's mode, weekday and slots in order, booked iff previously booked, without end times |
| AvailabilityRoute.BookedSlotSurvives | app/api/tutor/availability/route.ts:146-158 | a booked slot stays booked across re-materialisation while the template still offers its `(start, type)` |
| AvailabilityRoute.MaterializeIdempotent | app/api/tutor/availability/route.ts:120-186 | posting the same template again on the resulting store changes nothing |
| AvailabilityRoute.CountCoveredBound | app/api/tutor/availability/route.ts:116-188 | the number of saved documents is at most 7 |
| AvailabilityRoute.CountCoveredComplete | app/api/tutor/availability/route.ts:120-128 | a template with all seven weekdays saves a document for every horizon date |
| AvailabilityRoute.MaterializeOne | app/api/tutor/availability/route.ts:120-185 | one loop iteration: without a template day for the weekday nothing is written or saved; otherwise the date's document is rebuilt, written back and saved |
| AvailabilityRoute.Post | app/api/tutor/availability/route.ts:93-188 | 401 iff the caller is not a tutor, with nothing written; otherwise the store is the 7-date materialisation and `saved` counts the covered dates (at most 7) |
| DateOrder.Earliest | app/api/tutor/availability/route.ts:76 | the earliest of a non-empty set of dates |
| DateOrder.Ascending | app/api/tutor/availability/route.ts:76 | the dates in strictly ascending order, each exactly once |
| DateOrder.PrependEarliest | app/api/tutor/availability/route.ts:76 | the earliest date followed by the other dates in ascending order lists all dates in ascending order |
| DateOrder.FirstSeven | app/api/tutor/availability/route.ts:74-76 | at most 7 dates, ascending, and any date left out is later than all listed ones, which are then 7 |
| DateOrder.LimitedPrefix | app/api/tutor/availability/route.ts:75-76 | cutting an ascending list at 7 leaves out only dates later than every kept one |
| AvailabilityRoute.ListSchedule | app/api/tutor/availability/route.ts:70-84 | the tutor's documents for the first seven dates, in ascending date order |
| AvailabilityRoute.Get | app/api/tutor/availability/route.ts:29-86 | 401 iff there is no `tutorId` parameter and the caller is not a tutor; the schedule is the parameter's tutor's, else the caller's; the education mode is that same tutor's profile's, or `hybrid` when the profile or its mode is missing or empty |
| AvailabilityRoute.GetNeverMissesTarget | app/api/tutor/availability/route.ts:41-55 | the "Tutor ID required" answer can never be given |
| BookingsRoute.Duration | app/api/bookings/route.ts:47 | 50 minutes online, 80 offline |
| BookingsRoute.EndTime | app/api/bookings/route.ts:60-61 | the rendered end time reads back as the start plus the duration, modulo a day |
| BookingsRoute.WrapAround | app/api/bookings/route.ts:60-61 | a time under two days wraps into the day by subtracting one day exactly when it reaches a day |
| BookingsRoute.DurationLaw | app/api/bookings/route.ts:47-61 | the end lies exactly the duration after the start, wrapping past midnight |
| BookingsRoute.Claim | app/api/bookings/route.ts:92-93 | only the claimed slot changes, to booked with the computed end time |
| BookingsRoute.Post | app/api/bookings/route.ts:23-124 | each error (401, 400, 404, 404, 409) iff its condition, in code order, and a failure changes nothing; a success claims the first matching slot and appends a confirmed booking whose id is its position |
| BookingsRoute.ClaimIsFinal | app/api/bookings/route.ts:81-93 | after a claim, the key's first slot is the claimed one and it is booked |
| BookingsRoute.ClaimSurvivesRematerialisation | app/api/bookings/route.ts:92 | a claimed slot stays booked when the tutor re-posts a template offering its key |
| BookingsRoute.RepeatedRequestConflicts | app/api/bookings/route.ts:81-89 | once a request has booked a slot, repeating it gets 409: at most one booking per slot, sequentially |
| BookingsRoute.StudentViewOf | app/api/bookings/route.ts:218-227 | each field of the student projection: the name, or `Unknown`; the class levels and subjects, or empty lists; the email as stored; the gender, or `Not Specified` |
| BookingsRoute.Get | app/api/bookings/route.ts:132-238 | 401 iff there is no caller; otherwise one entry per booking in order, with the profile's projection, or `Unknown Student` when the lookup fails |
| Middleware.SecondField | middleware.ts:34 | `split(" ")[1]`: absent iff the header has no space, and never contains a space |
| Middleware.IsPublic | middleware.ts:9-30 | the public routes and the `/_next`, `/static` and `/public` prefixes (its use is stated by `Decide`) |
| Middleware.OnboardingAllowed | middleware.ts:57-62 | a path under one of the onboarding prefixes (its use is stated by `OnboardingTokenConfined` and `OnboardingTokenForwarded`) |
| Middleware.BearerToken | middleware.ts:34 | a `Bearer <token>` header yields the token, whatever follows |
| Middleware.Token | middleware.ts:33-34 | a non-empty cookie wins; otherwise the second space-separated field of the `Authorization` header; with neither there is no token |
| Middleware.Refuse | middleware.ts:36-42 | 401 iff the path is an API path, otherwise the redirect |
| Middleware.Decide | middleware.ts:5-81 | pass-through iff the path is public; refusals are 401 only on API paths and redirect to `/login` or `/onboarding`; forwarding only with a verified token, carrying its identity, and for onboarding tokens only on onboarding paths |
| Middleware.InvalidTokenIsMissingToken | middleware.ts:36-53 | a token that fails verification is treated like a missing one |
| Middleware.OnboardingTokenConfined | middleware.ts:55-68 | an onboarding token outside the onboarding paths is refused, 401 or a redirect to `/onboarding` |
| Middleware.VerifiedSessionForwarded | middleware.ts:71-80 | a verified session token on a protected path is forwarded with its user id and role |
| Middleware.MissingTokenRefused | middleware.ts:32-42 | a protected request without a token gets 401 on API paths and a redirect to `/login` on pages |
| Middleware.OnboardingTokenForwarded | middleware.ts:55-80 | an onboarding token on an onboarding path is forwarded with its user id and role |
| CalendarView.PreviousIndex | components/booking/calendar-view.tsx:71-73 | one step back, clamped at the first date |
| CalendarView.NextIndex | components/booking/calendar-view.tsx:85-89 | one step forward, clamped at the last date |
| CalendarView.DateScroller.constructor | components/booking/calendar-view.tsx:47 | the scroller starts at the first date |
| CalendarView.DateScroller.Previous | components/booking/calendar-view.tsx:71-73 | the selected index stays in range and moves back by one unless at the first date |
| CalendarView.DateScroller.Next | components/booking/calendar-view.tsx:85-89 | the selected index stays in range and moves forward by one unless at the last date |
| CalendarView.DateScroller.Pick | components/booking/calendar-view.tsx:100 | picking a date selects exactly that index |
| CalendarView.Lower | components/booking/calendar-view.tsx:52 | lower-casing maps each upper-case ASCII letter to its lower-case letter and keeps every other character |
| CalendarView.LowerIdempotent | components/booking/calendar-view.tsx:52 | lower-casing twice is lower-casing once |
| CalendarView.ForDay | components/booking/calendar-view.tsx:51-53 | an entry is for the day when it carries the ISO date, or carries no date and its weekday name matches in any case (its use is stated by `DayAvailability`) |
| CalendarView.DayAvailability | components/booking/calendar-view.tsx:51-53 | the first entry with the selected ISO date, or undated with the same weekday name in any case; absent iff there is none |
| CalendarView.DatedEntryNeedsItsDate | components/booking/calendar-view.tsx:52 | a dated entry never answers to another date |
| CalendarView.SlotButtons | components/booking/calendar-view.tsx:121-159 | no grid iff no day or no slots; one button per slot, disabled and inert iff booked, selected iff the selection is this date and time |
| TagInput.Trim | components/ui/tag-input.tsx:20 | `trim` strips the leading and trailing white space and is empty iff the input is all white space |
| TagInput.TrimBounds | components/ui/tag-input.tsx:20 | the cut points of `trim`: white space before and after them, none just inside them, and they meet iff the input is all white space |
| TagInput.LeadingSpaces | components/ui/tag-input.tsx:20 | the length of the leading white-space run |
| TagInput.TrailingSpaces | components/ui/tag-input.tsx:20 | the length of the trailing white-space run |
| TagInput.Editor.constructor | components/ui/tag-input.tsx:15 | the input starts empty |
| TagInput.Editor.SetInput | components/ui/tag-input.tsx:58 | typing replaces the input |
| TagInput.Editor.HandleKeyDown | components/ui/tag-input.tsx:17-28 | Enter or comma appends the trimmed input only if non-empty and new, and clears the input only then; Backspace on an empty input drops exactly the last tag; other keys do nothing; the tag list stays duplicate-free |
| TagInput.Editor.RemoveTag | components/ui/tag-input.tsx:30-32 | every occurrence of the tag is removed and a duplicate-free list stays so |
| TagInput.CommitThenBackspace | components/ui/tag-input.tsx:17-28 | a committed tag is taken back off by Backspace on the cleared input |
| ClassLevelSelect.Decimal | components/ui/class-level-select.tsx:14 | the decimal numeral, digit by digit for numbers below 100 |
| ClassLevelSelect.ClassLevelsDistinct | components/ui/class-level-select.tsx:6-11 | the grouped catalogue has four levels, each value once |
| ClassLevelSelect.GranularValues | components/ui/class-level-select.tsx:13-17 | the granular levels' values are "1" to "12" in order |
| ClassLevelSelect.GranularDistinct | components/ui/class-level-select.tsx:13-17 | no class value occurs twice among the granular levels |
| ClassLevelSelect.GranularLevelsShape | components/ui/class-level-select.tsx:13-17 | the granular levels are "1" to "12" in order, distinct, named "Class n", staged Primary, Middle, High and Senior at indices below 5, 8, 10 and beyond |
| ClassLevelSelect.ToggleLevel | components/ui/class-level-select.tsx:30-44 | the value ends up selected iff it was not; single-select gives `[]` on a selected value and `[value]` otherwise; multi-select is the plain toggle |
| ClassLevelSelect.ToggleLevelTwice | components/ui/class-level-select.tsx:30-44 | clicking an unselected level twice restores the selection |
| SubjectSelect.CategoryOf | components/ui/subject-select.tsx:52 | the subject's category, or `general` when it is null or empty |
| SubjectSelect.GroupKeysSnoc | components/ui/subject-select.tsx:51-56 | after one more reduce step, the keys are exactly the categories met in the longer prefix |
| SubjectSelect.GroupFiltersSnoc | components/ui/subject-select.tsx:51-56 | after one more reduce step, each group is its category's subjects of the longer prefix, in order |
| SubjectSelect.GroupedSnoc | components/ui/subject-select.tsx:51-56 | one reduce step (create the group when missing, then push) keeps the grouping exact |
| SubjectSelect.GroupByCategory | components/ui/subject-select.tsx:51-56 | the groups are exactly the categories met, and each group holds its category's subjects in input order |
| SubjectSelect.GroupsPartition | components/ui/subject-select.tsx:51-56 | grouping by category filter puts each subject in its own category's group and nowhere else |
| TutorsRoute.Take | app/api/tutors/route.ts:22 | `limit(n)` keeps a prefix of at most n documents |
| TutorsRoute.Dedup | app/api/tutors/route.ts:29 | the `Set` spread has no duplicates and exactly the same members |
| TutorsRoute.DedupOfDistinct | app/api/tutors/route.ts:29 | a duplicate-free id list passes through unchanged |
| TutorsRoute.AvailableTutorIds | app/api/tutors/route.ts:16-29 | the date's tutor ids, each once, each from a document carrying the date, and every tutor id among the first 100 such documents |
| TutorsRoute.AvailableTutorIdsComplete | app/api/tutors/route.ts:16-29 | when at most 100 documents carry the date, every tutor with one of them is in the id list |
| TutorsRoute.NoTutorIdsIffNoDocuments | app/api/tutors/route.ts:29-33 | the id list is empty iff no availability document carries the date |
| TutorsRoute.TutorIds | app/api/tutors/route.ts:13-34 | the id restriction exists iff a date was given |
| TutorsRoute.Search | app/api/tutors/route.ts:6-63 | at most 100 tutors from the user collection; with a date only tutors available that day, none when nobody is, and otherwise the first 100 tutors among the date's ids; with a subject other than `All` only tutors teaching it; without filters the first 100 tutors |
| TutorsRoute.TutorQuery | app/api/tutors/route.ts:36-44 | the user query: role `tutor`, and an id in the date's id list when there is one (its use is stated by `Search`) |
| TutorsRoute.Teaches | app/api/tutors/route.ts:59-61 | the subject filter: the tutor's subjects include the subject (its use is stated by `SubjectFilterNarrows`) |
| TutorsRoute.DatedSearchComplete | app/api/tutors/route.ts:15-63 | a dated search returns every tutor with a document on that date who teaches the requested subject, while neither query reaches its limit of 100 |
| TutorsRoute.SubjectFilterNarrows | app/api/tutors/route.ts:59-61 | the subject filter is the order-preserving selection from the unfiltered result, and `All` filters nothing |
| Sidebar.EffectiveRole | components/sidebar/sidebar.tsx:14 | a missing or empty role reads as `student` |
| Sidebar.NavItems | components/sidebar/sidebar.tsx:16-47 | exactly the entries whose allowed roles contain the role |
| Sidebar.FilteredByRole | components/sidebar/sidebar.tsx:47 | the role filter keeps only entries open to the role, and every such entry |
| Sidebar.StudentItems | components/sidebar/sidebar.tsx:16-47 | a student, or a user without a role, gets the first four entries |
| Sidebar.StudentTitles | components/sidebar/sidebar.tsx:17-39 | the first four entries are Progress, Book a Session, Tutors and Profile |
| Sidebar.StudentNavigation | components/sidebar/sidebar.tsx:16-47 | a student sees Progress, Book a Session, Tutors and Profile |
| Sidebar.TutorItems | components/sidebar/sidebar.tsx:16-47 | a tutor gets the Progress, Profile and Calendar entries |
| Sidebar.TutorTitles | components/sidebar/sidebar.tsx:17-45 | the Progress, Profile and Calendar entries carry those titles |
| Sidebar.TutorNavigation | components/sidebar/sidebar.tsx:16-47 | a tutor sees Progress, Profile and Calendar |
| Sidebar.OtherRoleNavigation | components/sidebar/sidebar.tsx:47 | any other role sees no entry |

## Left out

- Database access (Appwrite queries, document creation and update, `JSON.parse` and `JSON.stringify` of slot lists) is replaced by the collection values. The store holds at most one document per `(tutor, date)`, where the code reads `documents[0]` of a query result.
- Request-body validation with zod: the model takes already validated requests (a weekday and mode from the enums, a slot type of `online` or `offline`), so the 400 "Invalid request body" answers are not modelled.
- Every outer `catch` that answers 500, and the per-booking inner catch of the bookings GET that yields `name: "Error fetching student"`: both depend on I/O failures.
- The clock: `today` and the creation timestamp are parameters. The mix of `toISOString` (UTC date) and `toLocaleDateString` (local weekday) is collapsed into a single day number with one weekday.
- `verifyJWT` is an oracle parameter of `Middleware.Decide`; signature checking and expiry are not modelled, and neither is the `config.matcher` path exclusion.
- Concurrency: two simultaneous booking requests can both read the slot as free before either writes. The model is sequential, so `BookingsRoute.RepeatedRequestConflicts` only shows at-most-one-booking for requests in sequence.
- `ID.unique()`: a new booking's id is its position in the bookings sequence.
- The bookings GET listing query (caller as tutor, descending date and start time, limit 50) is an input: `BookingsRoute.Get` takes the bookings the query returned.
- The tutors route's database order: both queries are modelled as collection order, then a filter, then the first 100.
- The per-mode slot limits (`close` none, `half` two, the other modes five) and the clearing of a day's slots on a mode change: the calendar editor page enforces them as slots are added, and the availability route accepts any template. The editor page is not part of this model.
- `TimeOfDay.ParseHHmm`, `TimeOfDay.ParseHmmA`: the date library's leniencies beyond one or two digits per number are not modelled: trailing white space after the time, and the spellings of the `a` token other than `AM`/`PM` (`a.m.`, `p m`, a bare `a` or `p`). The model, like the library, rejects leading white space and trailing text.
- `CalendarView.Lower`: lower-cases ASCII letters only; JavaScript's full Unicode case mapping is not modelled.
- `TagInput.Editor.HandleKeyDown`: the tag list is a prop, so the method returns the list passed to `onTagsChange` and does not update a stored list. `preventDefault` is not modelled.
- Rendering (class names, icons, badges, the label lookup in the selected-level badges, the loading and error states of the subject picker, the subject fetch) is not modelled.
- `SubjectSelect.GroupByCategory`: the order of the keys of the JavaScript object built by the reduce is not modelled; the groups are a map. The accumulator is a plain object, so a category named like an inherited property (`constructor`, `toString`, `__proto__`) would reach that property instead of a group; the model treats every category as an ordinary key.
- The calendar's seven `Date` objects, their display strings and the selection callback are represented by the ISO date and weekday name of the selected day; `CalendarView.DateScroller` keeps only the selected index.
