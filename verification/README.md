# Attendance: RSVP store, announcements, leaderboard paging and form rules

This project models the sequential core of the team attendance system. The
system is made of a NestJS backend, a Discord bot and a React/Hono web
front end. The model covers:

- **The event endpoints** (`EventController`):
  - the RSVP upsert, guarded by "event exists" and "event not ended";
  - listing events with a date window, a type filter, ordering and a limit;
  - `findOne`, `update` and the scan-in error mapping;
  - the decision the token callback makes.

  The database is two maps: events by id, and RSVPs by `(eventId, userId)`.
  The clock is an integer `now` in milliseconds.
- **The RSVP announcement builders**. `BotService` is the web server's
  `generateMessage` and `ReminderMessage` is the bot's reminder message.
  They cover:
  - status emojis;
  - the mentor/other rosters and their "coming" counts;
  - the earliest RSVP;
  - role mentions;
  - the button row.

  The shared button custom ids live in `Announcement`. A message is a record
  of strings, counts and lists, not Discord builder objects.
- **The outreach leaderboard** (`OutreachPagination`, `Leaderboard`):
  - rounding a duration to whole minutes, then splitting it into hours and
    minutes;
  - the page count and page slices;
  - the navigation buttons' targets, flags and custom ids.
- **The infinite-scroll paging arithmetic** (`InfiniteList`, `DataTable`): the
  flattened pages, the loaded and reported totals, and the "fetch more?"
  guards.
- **The validators and the auth status** (`Scancode`, `UserListParams`,
  `AuthStatus`):
  - the scancode schemas of both forms and their submit handlers, as
    sequences of effects;
  - the user-list paging parameters;
  - `isAuthenticated` / `isAdmin`.

Shared modules:

- `Wrappers` holds `Option` and `Result`.
- `Seqs` holds `Filter`, `Flatten`, `Join`, `Slice` and `IndexOf`, with the
  partition and subsequence lemmas.
- `Decimal` holds integer rendering and `parseInt`.
- `Domain` holds the entities `Event`, `Rsvp`, `Status` and `EventType`.

JavaScript semantics are written out where they matter:

- `Math.round(x)` is `floor(x + 1/2)`.
- `%` truncates toward zero (`JsRem`).
- Truthiness is explicit: an empty string, `0`, `null` and `undefined` are
  all falsy.
- `??` is `Option.GetOr`.

I/O is replaced by parameters:

- the database reads (the events and rule maps, the RSVP list);
- the result of the service calls (`rsvpService.scanin`, the mutations'
  outcomes);
- the clock (`now`);
- the random custom-id suffixes (`random`);
- the fresh RSVP id (`freshId`).

## Model

| member | source | states |
|---|---|---|
| EventController.SetEventRsvp | packages/backend/src/event/event.controller.ts:329-357 | An unknown event gives NotFound "Event not found" with the store unchanged. An ended event (`endDate < now`) gives BadRequest "Event has already ended" with the store unchanged. It succeeds exactly when the event exists and has not ended. On success, only the `(eventId, userId)` entry changes: an existing row keeps its id, delay and createdAt and takes the new status, and a missing row is created with that status. |
| EventController.SetEventRsvpKeepsIdsUnique | packages/backend/src/event/event.controller.ts:343-357 | With a fresh id for a possible new row, RSVP ids stay pairwise distinct after an upsert. |
| EventController.SetEventRsvpRowCount | packages/backend/src/event/event.controller.ts:343-357 | A successful upsert adds at most one row, and it adds one exactly when the pair had no RSVP. |
| EventController.SetEventRsvpIdempotent | packages/backend/src/event/event.controller.ts:343-357 | Repeating the same upsert leaves the store as the first call left it. |
| EventController.SetEventRsvpUpdatesInPlace | packages/backend/src/event/event.controller.ts:343-357 | YES then LATE for the same user leaves one row: it has the first call's id and status LATE. |
| EventController.GetEventRsvp | packages/backend/src/event/event.controller.ts:305-314 | The RSVP of `(eventId, userId)` is returned when one exists, and nothing otherwise. |
| EventController.GetAfterSet | packages/backend/src/event/event.controller.ts:305-363 | After a successful set, reading the pair returns the requested status. Every other pair reads as before. |
| EventController.FindAll | packages/backend/src/event/event.controller.ts:77-101 | Only stored events matching the window and type filter are returned. They come in ascending start order without repeats, and at most `take` of them. A matching event is left out only when `take` is reached, and then only if it starts no earlier than the last one returned. |
| EventController.FindOne | packages/backend/src/event/event.controller.ts:144-152 | A stored event is returned. A missing id gives NotFound "Event not found". |
| EventController.ApplyPatch | packages/backend/src/event/event.controller.ts:261-276 | Each field present in the patch replaces the stored one, and each absent field keeps the stored value. A patch never changes the event's id or rule, so an empty patch changes nothing. |
| EventController.Update | packages/backend/src/event/event.controller.ts:261-276 | A body with no field set fails with the 500 "Internal server error" for any id, because the update has nothing to set. Otherwise a missing id gives NotFound "Event not found". Both errors leave the store unchanged. Otherwise the stored event is replaced by `ApplyPatch` of the stored event and the body, that patched event is returned, and the other events and all RSVPs are untouched. |
| EventController.UpdateIdempotent | packages/backend/src/event/event.controller.ts:261-276 | Applying the same patch twice stores the same events as applying it once. |
| EventController.ScaninResponse | packages/backend/src/event/event.controller.ts:398-405 | An empty scan-in result gives BadRequest "Invalid Scancode". Otherwise the RSVP is passed through. |
| EventController.TokenCallback | packages/backend/src/event/event.controller.ts:189-211 | A missing or empty code gives BadRequest "Code is required", whatever else is present. With a code but no user, the result is a redirect to the Discord login that stores the original URL in a `redirectTo` cookie, with no check-in. Otherwise it checks in with the code and redirects to `{frontendUrl}/events/{eventId}`. |
| BotService.StatusToEmoji | packages/frontend/app/server/services/botService.ts:28-46 | Each status has its fixed emoji. LATE with a non-zero delay `d` shows `:clock3: - {d}m late`, and otherwise plain `:clock3:`. |
| BotService.EmojiDeterminesStatus | packages/frontend/app/server/services/botService.ts:28-46 | Two equal emojis come from the same status, whatever the delays. |
| BotService.RoleIds | packages/frontend/app/server/services/botService.ts:76-94 | With no rule: the guild id, then the mentor role exactly when the event type is Mentor. With a rule: exactly the rule's role ids. A rule missing from the table gives "Event Rule not found". |
| BotService.RoleMentionListIsEnglishList | packages/frontend/app/server/services/botService.ts:104-108 | For one or more ids, the mention list equals the English enumeration of the mentions: "a", "a and b", "a, b and c", and so on. |
| BotService.MentorRsvps | packages/frontend/app/server/services/botService.ts:96-98 | Each kept RSVP comes from the input and has the mentor role. Every input RSVP with the mentor role is kept. A user whose roles are null is not a mentor. |
| BotService.OtherRsvps | packages/frontend/app/server/services/botService.ts:100-102 | Each kept RSVP comes from the input and lacks the mentor role. Every input RSVP without it is kept. |
| BotService.RostersPartition | packages/frontend/app/server/services/botService.ts:96-102 | Mentors and others together hold every input RSVP, as many times as it occurs. Each roster keeps the input order. |
| Announcement.ComingCount | packages/frontend/app/server/services/botService.ts:174-176 | The count never exceeds the roster size. It equals the size exactly when everyone answered YES or LATE, and it is zero exactly when nobody did. |
| BotService.RosterCountsAddUp | packages/frontend/app/server/services/botService.ts:167-201 | Every YES or LATE answer is counted in exactly one of the two rosters: the mentor embed's count plus the others embed's count is the number of people coming. |
| BotService.OtherLine | packages/frontend/app/server/services/botService.ts:186-190 | A late non-mentor reads `{name} - :clock3:`, whatever delay was announced. |
| BotService.OtherLineIgnoresDelay | packages/frontend/app/server/services/botService.ts:168-190 | Changing an RSVP's delay never changes its non-mentor line. A mentor line shows a non-zero delay of a LATE answer. |
| BotService.MentorEmbed | packages/frontend/app/server/services/botService.ts:167-183 | The mentor embed has one line per mentor, in order. Its count is the number of mentors who answered YES or LATE, and its title is `Mentors ({count})`. |
| BotService.OtherEmbed | packages/frontend/app/server/services/botService.ts:185-201 | The others embed has one line per non-mentor, in order. Its count is the number of non-mentors who answered YES or LATE, and its title is `Others ({count})`. |
| BotService.Rosters | packages/frontend/app/server/services/botService.ts:165-201 | There is a mentor embed only for a non-empty mentor roster and an others embed only for a non-empty others roster, mentors first. |
| BotService.GenerateMessage | packages/frontend/app/server/services/botService.ts:53-208 | It fails with "Event not found" or the rule error, and succeeds otherwise. On success: the content is `Please RSVP ({roles})`; the info embed comes first, with the event's title, the roles field, the event's description when non-empty and none otherwise, the event's start and end times, and the event URL; the roster embeds follow; the buttons are the five RSVP buttons of the event. |
| Announcement.RoleMention | packages/frontend/app/server/services/botService.ts:104-108 | A mention is `<@&` followed by the id and `>`. |
| Announcement.ParseStatusName | packages/frontend/app/server/services/botService.ts:142-158 | Reading a status name back gives the same status. |
| Announcement.ParseActionPathRoundTrip | packages/frontend/app/server/services/botService.ts:142-162 | The `rsvp/{STATUS}` and `checkin` suffixes read back as the action they encode. |
| Announcement.ButtonCustomIdRoundTrip | packages/frontend/app/server/services/botService.ts:142-162 | `event/{id}/rsvp/{STATUS}` and `event/{id}/checkin` read back as the event id and action, for any id without `/`. |
| Announcement.RsvpButtons | packages/frontend/app/server/services/botService.ts:142-163 | The buttons are, in order, `event/{id}/rsvp/YES`, `…/MAYBE`, `…/NO`, `…/LATE` and `event/{id}/checkin`. |
| Announcement.ButtonCustomIdInjective | packages/backend/src/bot/utils/rsvpReminderMessage.ts:110-135 | Different actions on one event never share a custom id. |
| Announcement.RsvpButtonsDistinct | packages/backend/src/bot/utils/rsvpReminderMessage.ts:110-135 | The five buttons of a message carry five distinct custom ids. |
| ReminderMessage.Insert | packages/backend/src/bot/utils/rsvpReminderMessage.ts:25-31 | Insertion adds exactly the new element, and the multiset grows by it. |
| ReminderMessage.SortNewestFirst | packages/backend/src/bot/utils/rsvpReminderMessage.ts:25-31 | The sort is a permutation of a copy of the input. The input itself is not reordered. |
| ReminderMessage.SortNewestFirstSorted | packages/backend/src/bot/utils/rsvpReminderMessage.ts:27-31 | The sorted copy is newest first: creation times never increase. |
| ReminderMessage.LastEarliest | packages/backend/src/bot/utils/rsvpReminderMessage.ts:27-33 | It picks the RSVP with the minimal creation time; of several tied, it picks the last in input order. |
| ReminderMessage.SortLastIsLastEarliest | packages/backend/src/bot/utils/rsvpReminderMessage.ts:27-33 | The stable sort's last element is that RSVP. |
| ReminderMessage.FirstIdIsEarliest | packages/backend/src/bot/utils/rsvpReminderMessage.ts:33 | `firstId` is undefined exactly for no RSVPs. Otherwise it is the id of the earliest-created RSVP. |
| ReminderMessage.ExactlyOneFirstFlag | packages/backend/src/bot/utils/rsvpReminderMessage.ts:43-53 | With distinct ids and at least one RSVP, exactly one RSVP is flagged as the first answer. |
| ReminderMessage.OneFirstAcrossRosters | packages/backend/src/bot/utils/rsvpReminderMessage.ts:33-53 | With distinct ids and at least one RSVP, the mentor and others rosters together hold exactly one RSVP whose id is `firstId`, so exactly one rendered line is flagged first. |
| ReminderMessage.Entries | packages/backend/src/bot/utils/rsvpReminderMessage.ts:43-53 | There is one entry per RSVP, in order. An entry is flagged first exactly when its id is `firstId`. |
| ReminderMessage.RostersPartition | packages/backend/src/bot/utils/rsvpReminderMessage.ts:35-41 | Mentors and others together hold every input RSVP. Each roster keeps the input order. |
| Announcement.ComingCountSplits | packages/backend/src/bot/utils/rsvpReminderMessage.ts:35-41 | Splitting the RSVPs into mentors and others splits the coming count: each YES or LATE answer falls in exactly one roster. |
| ReminderMessage.OthersCountAsWrittenIsLength | packages/backend/src/bot/utils/rsvpReminderMessage.ts:92-94 | The others count, as written, equals the number of non-mentor RSVPs, whatever their statuses. |
| ReminderMessage.OthersCountCounterexample | packages/backend/src/bot/utils/rsvpReminderMessage.ts:92-94 | A single non-mentor who answered NO is counted as 1 by the as-written filter and as 0 by the intended one. |
| ReminderMessage.ComingCountsAddUp | packages/backend/src/bot/utils/rsvpReminderMessage.ts:88-94 | The corrected mentor and others counts add up to everybody coming. |
| ReminderMessage.RosterEmbeds | packages/backend/src/bot/utils/rsvpReminderMessage.ts:96-108 | There is a mentor roster only when there are mentors and an others roster only when there are others, mentors first. The mentor title counts those coming. The others title counts every non-mentor RSVP, as written. |
| ReminderMessage.CorrectedRosterEmbeds | packages/backend/src/bot/utils/rsvpReminderMessage.ts:96-108 | The corrected rosters appear under the same conditions as written. Each is the full embed: the title `Mentors ({n})` or `Others ({n})` and the count, where n is the number of that roster's YES/LATE answers, and the roster's entries with the first-answer flag. |
| ReminderMessage.CorrectedDiffersExactlyWhenSomeOtherNotComing | packages/backend/src/bot/utils/rsvpReminderMessage.ts:88-108 | The corrected rosters equal the rosters as written exactly when every non-mentor RSVP is YES or LATE. |
| ReminderMessage.CorrectedCountsAreComing | packages/backend/src/bot/utils/rsvpReminderMessage.ts:88-108 | In the corrected reminder, every roster title reads `{group} ({count})`, and the counts together are the people coming in the two rosters. |
| ReminderMessage.ReminderFor | packages/backend/src/bot/utils/rsvpReminderMessage.ts:55-146 | The info embed comes first, with the event's title. It pings Outreach, Mentor or Social by event type, and everyone otherwise. Its Type field names the event type. It reads "Yes"/"No" for all-day, carries the event's description when non-empty and none otherwise, shows the event's start and end times, and links to the event page. The rosters follow, and the buttons are the five RSVP buttons. |
| OutreachPagination.RoundToMinutes | packages/bot/src/bot/buttons/OutreachPaginationButton.ts:25 | The rounded minute count `k` is nearest to the input, halves rounding up: `60000k − 30000 ≤ millis < 60000k + 30000`. |
| OutreachPagination.RoundDurationSplits | packages/bot/src/bot/buttons/OutreachPaginationButton.ts:22-29 | For `millis ≥ 0`: `0 ≤ minutes < 60`, hours is non-negative, and `hours·60 + minutes` is millis rounded to the nearest minute. |
| OutreachPagination.RoundDurationIdempotent | packages/bot/src/bot/buttons/OutreachPaginationButton.ts:22-29 | For millis ≥ 0: rounding an already rounded duration gives the same hours and minutes. |
| OutreachPagination.RoundDurationNegativeNotIdempotent | packages/bot/src/bot/buttons/OutreachPaginationButton.ts:22-29 | For negative durations idempotence fails: −1 minute splits into −1 hour and −1 minute, and rounding that again gives −2 hours and −1 minute. |
| OutreachPagination.MaxPage | packages/bot/src/bot/buttons/OutreachPaginationButton.ts:101 | The page count is the ceiling of `count / 10`. |
| OutreachPagination.CreateMessage | packages/bot/src/bot/buttons/OutreachPaginationButton.ts:91-144 | It gives "Invalid page" exactly when the page is outside `[1, maxPage]`, so empty data rejects every page. A valid page shows exactly the entries of `PageSlice(data, page)`, that is `data[(page−1)·10 .. min(page·10, |data|))`: between 1 and 10 lines, line `i` built from the slice's entry `i`. The title is `Outreach Leaderboard {page}/{maxPage}`. The buttons are First/Previous/Next/Last with targets 1, page−1, page+1, maxPage. Button `i`'s custom id is `leaderboard/{target}/{random[i]}`. First and Previous are disabled exactly on page 1, and Next and Last exactly on the last page. |
| OutreachPagination.PagesUpToPrefix | packages/bot/src/bot/buttons/OutreachPaginationButton.ts:105-109 | The slices for pages `1..n`, concatenated, are the first `min(10n, len)` entries. |
| OutreachPagination.AllPagesCoverData | packages/bot/src/bot/buttons/OutreachPaginationButton.ts:101-109 | The slices of pages `1..maxPage`, concatenated, are exactly the fetched data. |
| OutreachPagination.ButtonsRouteToTargets | packages/bot/src/bot/buttons/OutreachPaginationButton.ts:119-141 | On a built page, the button route reads each button's custom id back as exactly that button's target page, when the random suffixes are non-empty and contain no '/'. |
| OutreachPagination.NavCustomIdRoundTrip | packages/bot/src/bot/buttons/OutreachPaginationButton.ts:60-65 | The handler's `parseInt` reads back the target that `leaderboard/{target}/{random}` encodes. |
| OutreachPagination.EnabledButtonsLeadToValidPages | packages/bot/src/bot/buttons/OutreachPaginationButton.ts:119-141 | Given the same entries, every enabled navigation button's target page builds without "Invalid page". |
| Leaderboard.RoundDurationMatchesBot | packages/frontend/src/pages/_authenticated/leaderboard.tsx:16-23 | The front end's `roundDuration` equals the bot's for every input. |
| Leaderboard.RoundDurationSplits | packages/frontend/src/pages/_authenticated/leaderboard.tsx:16-23 | For `millis ≥ 0`: `0 ≤ minutes < 60`, and `hours·60 + minutes` is millis rounded to the nearest minute. |
| Leaderboard.TableInputOf | packages/frontend/src/pages/_authenticated/leaderboard.tsx:55-63 | The rows are the in-order concatenation of the pages' items. The row count is the last page's total, or 0 with no pages or no data. |
| Leaderboard.LeaderboardStopsFetching | packages/frontend/src/pages/_authenticated/leaderboard.tsx:55-88 | Once the rows loaded reach the reported total, the table never fetches again. |
| InfiniteList.Total | packages/frontend/src/components/InfiniteList.tsx:42 | The total is the last page's total, or 0 with no pages. |
| InfiniteList.PageItems | packages/frontend/src/components/InfiniteList.tsx:49-52 | There is one item list per page, in page order. |
| InfiniteList.CurrentTotalIsFlatLength | packages/frontend/src/components/InfiniteList.tsx:44-52 | The loaded count, a fold over the pages, equals the number of flattened items. |
| InfiniteList.FlatDataAppend | packages/frontend/src/components/InfiniteList.tsx:42-52 | A new page appends its items after the ones already shown. It raises the loaded count by its size and sets the total to its own. |
| InfiniteList.NoFetchWhenAllLoaded | packages/frontend/src/components/InfiniteList.tsx:63-78 | Once the loaded items reach the total, no scroll position fetches more. |
| InfiniteList.FetchRequiresMissingItems | packages/frontend/src/components/InfiniteList.tsx:63-78 | A fetch happens exactly when the element exists, is within 300 px of its bottom, is not fetching, and the last page's total exceeds the items loaded. |
| InfiniteList.EstimateSize | packages/frontend/src/components/InfiniteList.tsx:59 | The row height is `fixedHeight`, or 48 when it is absent or 0. |
| DataTable.SelectionFlagsOf | packages/frontend/src/components/DataTable.tsx:100-101 | Single and multi row selection are both on exactly when the mode is "multiple". |
| DataTable.RowHeight | packages/frontend/src/components/DataTable.tsx:121 | The row height is `fixedHeight`, or 48 when it is absent or 0. |
| DataTable.ShouldFetchAgreesWithList | packages/frontend/src/components/DataTable.tsx:129-148 | A fetch happens exactly when the element, `fetchNextPage` and `totalDBRowCount` are all present, the element is within 300 px of the bottom, it is not fetching, and `totalFetched < totalDBRowCount`. |
| DataTable.NoFetchWhenAllRowsFetched | packages/frontend/src/components/DataTable.tsx:125-148 | Once the rows in the row model reach the reported count, or the count is absent, nothing is fetched. |
| AuthStatus.StatusOf | packages/frontend/src/api/routers/auth.router.ts:19-22 | `isAuthenticated` holds exactly when there is a session user. `isAdmin` holds exactly when there is a user, its roles are present, and they include the mentor role. |
| AuthStatus.AdminIsAuthenticated | packages/frontend/src/api/routers/auth.router.ts:20-21 | Every admin is authenticated. With no user, or a user with no roles, `isAdmin` is false, not undefined. |
| Scancode.AdminCodeIssues | packages/frontend/src/features/user/components/NewAdminScancodeForm.tsx:8-15 | All issues concern the code field. A code shorter than six characters is reported first with zod's `.min(6)` message, and only then. The empty code reports both checks. |
| Scancode.FieldErrors | packages/frontend/src/features/events/components/UnknownCodeModal.tsx:200-204 | A failed parse leaves at most one error per path, and at least one when there are issues. A path has an error exactly when some issue is on it, and the error's message is the first such issue's. |
| Scancode.OnlyCodeIssues | packages/frontend/src/features/user/components/NewAdminScancodeForm.tsx:66-69 | When every issue is on the code field, exactly one error remains: the code field's first issue. |
| Scancode.ModalHandleSubmit | packages/frontend/src/features/events/components/UnknownCodeModal.tsx:108-138 | In `handleSubmit`, invalid form values produce only field errors, at least one, namely `FieldErrors` of the issues. Valid values run `onSubmit` on the validated form. |
| Scancode.EmptyCodeShowsFirstIssue | packages/frontend/src/features/events/components/UnknownCodeModal.tsx:200-204 | `handleSubmit` on an empty code yields one error in each form: "Scancode code cannot be empty" in the modal, and the `.min(6)` message in the admin form. |
| Decimal.ParseInt | packages/bot/src/bot/buttons/OutreachPaginationButton.ts:65 | `parseInt` yields a number exactly when digits follow the optional sign. |
| Scancode.ModalCodeIssues | packages/frontend/src/features/events/components/UnknownCodeModal.tsx:39-47 | All issues concern the code field. The empty code reports all three checks, the first being "Scancode code cannot be empty". |
| Scancode.ModalAcceptsValidCodes | packages/frontend/src/features/events/components/UnknownCodeModal.tsx:39-47 | The modal accepts a code exactly when it has at least six characters, all in `[A-Za-z0-9]`. |
| Scancode.FormsAcceptSameCodes | packages/frontend/src/features/user/components/NewAdminScancodeForm.tsx:8-15 | The admin form accepts exactly the codes with at least six characters, all alphanumeric. That is the same set the modal accepts. |
| Scancode.EmptyCodeRejected | packages/frontend/src/features/user/components/NewAdminScancodeForm.tsx:8-15 | The empty code, the admin form's default, is rejected by both schemas. |
| Scancode.UserOptionIssues | packages/frontend/src/features/events/components/UnknownCodeModal.tsx:33-36 | An absent option is accepted as null. A present option needs a non-empty label and a non-empty value. Each failure is reported at the nested path `userOption.label` or `userOption.value`, never at `userOption`. |
| Scancode.ValidateModal | packages/frontend/src/features/events/components/UnknownCodeModal.tsx:38-49 | The form is accepted exactly when the code is valid and the user option is null or complete. A rejection reports at least one issue. |
| Scancode.ModalDefaults | packages/frontend/src/features/events/components/UnknownCodeModal.tsx:92-97 | Parsing the defaults succeeds exactly for a valid scanned code, with the user option null. |
| Scancode.ModalSubmit | packages/frontend/src/features/events/components/UnknownCodeModal.tsx:108-139 | With no user, the only effect is "Please select a user" on `userOption`. With a user, the code is first created for that user. On success, scan-in follows with the same code and then close. On failure, the code field gets the tRPC message or "An unknown error occurred", and the modal stays open. |
| Scancode.ModalScansInOnlyCreatedCodes | packages/frontend/src/features/events/components/UnknownCodeModal.tsx:108-139 | Every scan-in follows the creation of the same valid code for the chosen user. Created codes are always valid. The modal closes exactly when the form is valid, a user is chosen and the creation succeeds. |
| Scancode.AdminSubmit | packages/frontend/src/features/user/components/NewAdminScancodeForm.tsx:40-57 | The scancode is created for the form's user with the entered code. On success the field resets to "". On failure it keeps its value and there is no reset. A field error is set exactly for tRPC client errors. |
| Scancode.AdminHandleSubmit | packages/frontend/src/features/user/components/NewAdminScancodeForm.tsx:8-57 | In `handleSubmit`, an invalid code keeps its value and reports exactly one error on the code field: its schema's first issue. A valid code reaches the submit handler. |
| Scancode.UserOptions | packages/frontend/src/features/events/components/UnknownCodeModal.tsx:74-83 | There is one option per fetched user, in page order, with label = username and value = id. Missing data gives no options. |
| Scancode.UserOptionsAppend | packages/frontend/src/features/events/components/UnknownCodeModal.tsx:74-83 | A further page of users appends its options after the existing ones. |
| UserListParams.NumberIssues | packages/backend/src/schema/UserListParamsSchema.ts:4-5 | A present value passes exactly when it is a number, an integer, and within the bounds. |
| UserListParams.Parse | packages/backend/src/schema/UserListParamsSchema.ts:3-6 | An accepted limit is in `[1, 100]` and an accepted cursor is at least 0. Absent fields default to 10 and 0. Present fields are taken as given. |
| UserListParams.ParseAcceptsExactlyBounds | packages/backend/src/schema/UserListParamsSchema.ts:4-5 | Present values are accepted exactly when the limit is an integer in `[1, 100]` and the cursor is an integer of at least 0. |
| UserListParams.EmptyObjectParses | packages/backend/src/schema/UserListParamsSchema.ts:3-6 | Parsing an empty object gives limit 10 and cursor 0. |
| UserListParams.ParseRoundTrip | packages/backend/src/schema/UserListParamsSchema.ts:3-6 | In-bounds integer parameters parse back unchanged. |

## Left out

- The service bodies behind the controller are not part of this model:
  - `checkinUser`, `checkoutUser`, `getEventUserRsvps`, `deleteEvent`;
  - `rsvpService.scanin`;
  - `getEventSecret`, `remove` and `getEventRsvps`.

  The controller's handling of their results is modelled: `ScaninResponse` and the `CheckinAndRedirect` action. `eventTokenPostCallback` and the other pure delegations are not modelled.
- EventController.SetEventRsvp: the "Invalid status" branch (`returning()` yielding no row) cannot happen when the upsert is one sequential step, so it is not modelled. The database's atomic conflict resolution and foreign keys are also not modelled.
- EventController.SetEventRsvp: a newly created RSVP gets `freshId` and `createdAt = now`; the database supplies both in the system.
- EventController.FindAll: events with the same start date may come in any order, as the database does not order ties.
- Dates are integer milliseconds. Luxon parsing, `toHuman`, `toLocaleString` and Discord's `time()` formatting are not modelled, and `Duration` is kept as hours and minutes.
- Floating point is not modelled. `Math.round(millis / 60000)` is taken as exact rational rounding. `parseInt` is modelled on an optional sign and leading digits; leading whitespace and the `NaN` page are not modelled.
- OutreachPagination.CreateMessage: the entries are taken as the backend returned them. The backend query (`cursor: page - 1, limit: 10`) is not part of this model.
- OutreachPagination.EnabledButtonsLeadToValidPages: proved only for a target page built from the same entries. The handler fetches the target page again with `cursor: page - 1, limit: 10`. If the backend honours the limit, the list has at most 10 entries, so Next and Last would always be disabled. The backend's leaderboard query is not part of this model.
- OutreachPagination.RoundDurationIdempotent: stated for non-negative durations only. Hours are floored while the remainder keeps the dividend's sign, so a negative duration is not a fixed point (`RoundDurationNegativeNotIdempotent`). Leaderboard durations are never negative, so this is not claimed as a defect.
- OutreachPagination.RoundDurationSplits: stated for non-negative durations only. For negative ones the truncating `%` makes `hours·60 + minutes` differ from the rounded minutes. Leaderboard durations are never negative.
- Leaderboard.RoundDurationSplits: stated for non-negative durations only, for the same reason as the bot's copy.
- `randomStr(4)` uses `Math.random` and is a parameter (`random`).
- `rsvpToDescription` is not part of this model. Reminder roster lines are the pair (RSVP, is-first) that it renders.
- ReminderMessage.RosterEmbeds assumes every rendered line is non-empty. With that assumption, a roster is present exactly when it has RSVPs.
- `ROLES` from the bot's constants is a parameter (`Roles`).
- BotService.RoleMentionList: with no role ids, the code mentions `undefined`. The model mirrors this, and the equivalence with the English enumeration is stated only for one or more ids.
- Discord builders, embed colours, timestamps and `toJSON` are not modelled. Each roster's description is its list of lines, which the code joins with "\n".
- InfiniteList: the virtualizer, scroll events and React state are not modelled. Only the guard predicate and the page arithmetic are.
- The mutations' network behaviour is reduced to how the promise settles (`Outcome`). `scaninMutation.mutate` is fire-and-forget and never enters the catch block.
- `logout` in the auth router (session invalidation and cookies) is not modelled.
- EventController.Update: the 500 for a body with no field set is the query builder's behaviour: `.set` throws when no value remains. The builder is not part of this model, and the error body is reduced to its message.
- Scancode.EmptyCodeShowsFirstIssue: the native `required` attribute is not modelled. MUI's `required` puts it on the code and user inputs, and neither form sets `noValidate`. So in a browser an empty field stops the submit before `handleSubmit` runs, and no zod message appears. The model describes what `handleSubmit` does once it runs.
- Scancode.UserOptionIssues: an error at `userOption.label` or `userOption.value` is kept by the form. The user field displays `errors.userOption?.message`, which is then undefined, so the field turns red without helper text. The model records the nested error but not what is displayed.
- Scancode.FieldErrors: `useZodForm` is not part of this model. It is taken to be react-hook-form with the zod resolver, which keeps the first issue per field. Its own `register` rules (`required`) are not run when a resolver is set, so they are not modelled.
- UserListParams: NaN and the infinities are not modelled, and zod's exact issue messages are reduced to issue kinds.
- Fuzzy ranking, routing, rendering and the other React hooks are not modelled.

## Findings

| source | as written | input that shows it | evidently intended | confidence | as-written member | corrected member |
|---|---|---|---|---|---|---|
| packages/backend/src/bot/utils/rsvpReminderMessage.ts:93 | `rsvp.status === 'YES' \|\| 'LATE'` is `(status === 'YES') \|\| 'LATE'`, which is always truthy, so the "Others" title counts every non-mentor RSVP | one non-mentor RSVP with status NO: the title reads "Others (1)" | count only YES or LATE answers, as the mentor title and the web server's builder do | high; not executed | ReminderMessage.OthersCountCounterexample | ReminderMessage.CorrectedCountsAreComing |
