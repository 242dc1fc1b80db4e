# On-demand marketplace: a verified model of its rules

This project models in Dafny the small deterministic rules of an on-demand services marketplace. The marketplace is a React web client (`frontend/`), a second React client (`client/`) and a FastAPI server (`server/`). The model covers:

- the recurring weekly availability: the client editor's merge, business-hours, per-day edits and save payload, and the server's upsert/get/delete endpoints over a table keyed by (user, day);
- the client state machines: the auth slice, the `useRequest` hook, the notification feed, the theme toggle and the unread counter, together with the error-payload decoder;
- the server's WebSocket connection registry;
- the service listing rules: the zod schemas, the bounded media-file list with its previews, the multipart body of `createService`, and the server's create/update of a service with its tag and media rows as server/app/crud/service.py writes it (see "## Left out");
- the auth form validators and DTOs, the reset-password token guard, the `RequireAuth` route guard and the notifications URL;
- the calendar event lists: moving an event between dates, the drag-into-grid cells, the hour-slot occupancy and the `HH:MM` to minutes conversion.

One Dafny module models each source file; the sign-in, sign-up, change-password and reset-password pages share `auth_pages.dfy`. `util.dfy` holds decimal text, `split`, `strip`/`trim`, JavaScript `Number()`/`parseInt`, `filter` and `splice`. Where the source updates objects in place (the day records shared with `DEFAULT_DAYS`, the stores, the connection registry, the form state, the grid cells), the model uses a `class` with `modifies` clauses. Where the source is an expression, the model uses functions. Each method is proved against a specification function, and lemmas state what the source promises about that function.

Integers are unbounded. JavaScript numbers appear only as prices, hours, minutes and ids, all integers here. Strings are sequences of Unicode scalar values: Python lengths count those, and zod's lengths count UTF-16 code units (`Util.Utf16Length`). Whitespace is the full Unicode set that Python's `strip()` or JavaScript's `trim()` removes. Clocks, ids from `Date.now()`, uuids, fetched file contents, browser object URLs, the date arithmetic of date-fns and zod's e-mail check are all parameters.

## Model

| member | source | states |
|---|---|---|
| TimeSchedule.DayRecord.constructor | frontend/src/components/TimeSchedule.tsx:22-38 | a day record holds its weekday name, `checked` flag and start/end times |
| TimeSchedule.NewDefaultDays | frontend/src/components/TimeSchedule.tsx:22-48 | `DEFAULT_DAYS` is seven fresh records, Monday to Sunday, each unchecked from "00:00" to "00:00" |
| TimeSchedule.FetchedView | frontend/src/components/TimeSchedule.tsx:62-67 | a fetched row becomes a record named by its day, `checked` = `is_available`, times cut to their first five characters |
| TimeSchedule.LastFetched | frontend/src/components/TimeSchedule.tsx:61-68 | the row whose values the `forEach` leaves for a day is a fetched row for that day; none when no row names it |
| TimeSchedule.LastFetchedSnoc | frontend/src/components/TimeSchedule.tsx:61-68 | one more fetched row becomes the last row for its own day and changes no other day |
| TimeSchedule.MergedViews | frontend/src/components/TimeSchedule.tsx:59-72 | the merge always yields exactly seven values |
| TimeSchedule.MergeState | frontend/src/components/TimeSchedule.tsx:60-68 | the dictionary has every weekday; a day that was not fetched still holds the shared `DEFAULT_DAYS` object; a fetched day holds a new record with the last row's values |
| TimeSchedule.Merge | frontend/src/components/TimeSchedule.tsx:59-72 | seven records, Monday first; their values are `MergedViews`; days not fetched are the default objects themselves, fetched days new objects |
| TimeSchedule.MergedWeekly | frontend/src/components/TimeSchedule.tsx:69-71 | the merge lists each weekday once, ordered Monday to Sunday |
| TimeSchedule.MergedMissingDay | frontend/src/components/TimeSchedule.tsx:60-71 | a day absent from the reply keeps its default value |
| TimeSchedule.LastFetchedWins | frontend/src/components/TimeSchedule.tsx:61-68 | when a day is fetched twice, the later row wins |
| TimeSchedule.MergedFetchedDay | frontend/src/components/TimeSchedule.tsx:61-68 | the merged value of a fetched day is the row's value when no later row names that day |
| TimeSchedule.IsoFormatPrefix | frontend/src/components/TimeSchedule.tsx:65-66 | the first five characters of the server's "HH:MM:SS" text are "HH:MM", so "10:00:00" is shown as "10:00" |
| TimeSchedule.BusinessHours | frontend/src/components/TimeSchedule.tsx:101-117 | the business-hours `map` keeps the length |
| TimeSchedule.BusinessHoursOn | frontend/src/components/TimeSchedule.tsx:102-109 | switching on: indices 0-4 become checked from "09:00" to "18:00", indices 5 and 6 are unchanged |
| TimeSchedule.BusinessHoursOff | frontend/src/components/TimeSchedule.tsx:110-116 | switching off: indices 0-4 become unchecked with their times kept, indices 5 and 6 are unchanged |
| TimeSchedule.BusinessHoursIdempotent | frontend/src/components/TimeSchedule.tsx:101-117 | applying the same setting twice is the same as applying it once |
| TimeSchedule.ApplyBusinessHours | frontend/src/components/TimeSchedule.tsx:103-115 | the `map` gives new objects for indices 0-4 with the values of `BusinessHours` and keeps the objects at 5 and 6 |
| TimeSchedule.Payload | frontend/src/components/TimeSchedule.tsx:121-128 | the save body has the same length and order as `days` and maps name to day, checked to is_available, start to start_time and end to end_time |
| TimeSchedule.EchoAll | frontend/src/components/TimeSchedule.tsx:121-128 | the reply to a save exists iff every entry echoes, and then each entry comes back in its place |
| TimeSchedule.Echo | server/app/api/endpoints/availability.py:24-54 | an entry comes back iff the server validates it, as the validated day, the two times rendered by `isoformat`, and `is_available` |
| TimeSchedule.EchoAllValidates | server/app/schemas/availability.py:26-27 | the reply exists exactly when the server accepts the whole body |
| TimeSchedule.ClearedTimeRejectsSave | frontend/src/components/TimeSchedule.tsx:121-128 | a cleared time input sends "", and the whole save is rejected |
| TimeSchedule.MergeEchoed | frontend/src/components/TimeSchedule.tsx:59-72 | a reply repeating each day's "HH:MM" times with ":00" appended merges back to those days |
| TimeSchedule.SaveThenMerge | frontend/src/components/TimeSchedule.tsx:59-72 | saving seven weekday records whose times are valid "HH:MM" texts is accepted, and merging the reply, with each time read to `isoformat` and cut to five characters, gives the same seven values back (also lines 121-128) |
| TimeSchedule.Editor.constructor | frontend/src/components/TimeSchedule.tsx:80-81 | on mount the editor holds the `DEFAULT_DAYS` objects, and the business-hours effect runs once with the switch off (also lines 101-117) |
| TimeSchedule.Editor.Receive | frontend/src/components/TimeSchedule.tsx:83-99 | the fetched reply replaces the list with the merge; days not returned are the shared default objects |
| TimeSchedule.Editor.SetBusinessHours | frontend/src/components/TimeSchedule.tsx:80 | the effect runs only when the switch's value changes, and never replaces the records at 5 and 6 (also lines 101-117) |
| TimeSchedule.Editor.DayChange | frontend/src/components/TimeSchedule.tsx:134-140 | the record at the index gets the new `checked` in place; every other field of every record is unchanged |
| TimeSchedule.Editor.TimeChange | frontend/src/components/TimeSchedule.tsx:142-149 | the record at the index gets both times in place; nothing else changes |
| TimeSchedule.Editor.DayChangeCopying | frontend/src/components/TimeSchedule.tsx:134-140 | the same edit made on a copy of the record: the values change the same way, and no existing record is written |
| TimeSchedule.Editor.SavePayload | frontend/src/components/TimeSchedule.tsx:119-132 | the save body is seven entries, one per record, in order |
| TimeSchedule.ReopenAfterEdit | frontend/src/components/TimeSchedule.tsx:60 | as written: after checking Saturday and reopening with nothing saved, Saturday is shown checked because the default object was edited (also lines 81, 134-140) |
| TimeSchedule.ReopenAfterCopyingEdit | frontend/src/components/TimeSchedule.tsx:60 | with the copying edit, reopening with nothing saved shows Saturday's default (also lines 81, 134-140) |
| AvailabilityModel.ParseDay | server/app/models/availability.py:10-17 | a string is a day exactly when it is one of the seven enumeration values |
| AvailabilityModel.ParseDayName | server/app/models/availability.py:10-17 | each day's value reads back as that day |
| AvailabilityModel.DayIndex | frontend/src/components/TimeSchedule.tsx:40-48 | every day has a position below 7 in the Monday-to-Sunday order |
| AvailabilityModel.AllDaysExactlyOnce | frontend/src/components/TimeSchedule.tsx:40-48 | every day occurs in that order exactly once |
| AvailabilityModel.NormaliseDayName | server/app/api/endpoints/availability.py:27-37 | `strip().lower()` leaves an enumeration value unchanged |
| AvailabilityModel.NormaliseDay | server/app/api/endpoints/availability.py:27 | `strip().lower()` never lengthens the text and leaves no upper-case ASCII letter |
| AvailabilityModel.NormaliseDayPadded | server/app/api/endpoints/availability.py:64 | a day name with a whitespace character at each end, a no-break space say, still finds its day |
| AvailabilityModel.LookupDay | server/app/api/endpoints/availability.py:27-37 | looking a validated entry up by its normalised day finds that same day |
| AvailabilityModel.IsoFormat | server/app/models/availability.py:26-27 | a time of day is rendered as "HH:MM:SS" |
| AvailabilityModel.ParseClock | server/app/schemas/availability.py:10-11 | a time field is read from "HH:MM" or "HH:MM:SS" with two digits each, the hour below 24 and the minute and second below 60; the result is always a valid time |
| AvailabilityModel.ParseIsoFormat | server/app/schemas/availability.py:10-11 | reading the `isoformat` text of a time gives the time back |
| AvailabilityModel.ParseHourMinute | server/app/schemas/availability.py:10-11 | "HH:MM" is read as that hour and minute with zero seconds |
| AvailabilityModel.HourMinuteEcho | server/app/models/availability.py:26-27 | a five-character time the server accepts is rendered back as that text followed by ":00" |
| AvailabilityModel.NewAvailability | server/app/models/availability.py:20-28 | a new row references its user and day and holds both times; an omitted `is_available` defaults to true |
| AvailabilityModel.ValidateEntry | server/app/schemas/availability.py:8-12 | an entry is valid iff its day is an enumeration value and both times are present; an omitted `is_available` defaults to true |
| AvailabilityModel.ValidateUnvalidate | server/app/schemas/availability.py:8-12 | validating a well-formed entry gives that entry back |
| AvailabilityModel.ValidateBody | server/app/schemas/availability.py:26-27 | a body is valid iff every entry is, and the entries keep their order |
| AvailabilityModel.EndBeforeStartAccepted | server/app/schemas/availability.py:10-11 | nothing requires start < end: 18:00 to 09:00 passes |
| AvailabilityEndpoints.RowOf | server/app/api/endpoints/availability.py:30-41 | the row an entry leaves has the user, the day, both times and the availability of the entry |
| AvailabilityEndpoints.LastEntryFor | server/app/api/endpoints/availability.py:24-42 | the entry whose values survive for a day is an entry for that day; none when no entry names it |
| AvailabilityEndpoints.LastEntryWins | server/app/api/endpoints/availability.py:24-42 | a day named twice in a body keeps the later entry's values |
| AvailabilityEndpoints.SaveAllSnoc | server/app/api/endpoints/availability.py:24-42 | the loop applies the entries one at a time, in order |
| AvailabilityEndpoints.Upsert | server/app/api/endpoints/availability.py:25-42 | one upsert adds the entry's (user, day) key, if it is new, and no other key |
| AvailabilityEndpoints.SaveAll | server/app/api/endpoints/availability.py:24-46 | a save never removes a key, and every key it adds belongs to the saving user |
| AvailabilityEndpoints.UpsertWellKeyed | server/app/api/endpoints/availability.py:25-42 | an update or insert keeps every row under its own (user, day) key |
| AvailabilityEndpoints.UpsertAt | server/app/api/endpoints/availability.py:25-42 | one upsert sets the entry's own key to the entry's values and leaves every other key as it was |
| AvailabilityEndpoints.SaveAllWellKeyed | server/app/api/endpoints/availability.py:24-46 | a whole save keeps every row under its own (user, day) key |
| AvailabilityEndpoints.SaveAllAt | server/app/api/endpoints/availability.py:24-46 | after a save, a (user, day) key named by an entry holds that day's last entry; every other key is unchanged |
| AvailabilityEndpoints.SaveKeepsOtherUsers | server/app/api/endpoints/availability.py:24-46 | saving never changes another user's rows |
| AvailabilityEndpoints.SaveKeepsUnnamedDays | server/app/api/endpoints/availability.py:24-46 | a day no entry names keeps its row, or stays absent |
| AvailabilityEndpoints.RowsFor | server/app/api/endpoints/availability.py:95-99 | the rows of a user for a list of days are exactly the rows stored under those keys |
| AvailabilityEndpoints.AvailabilityTable.constructor | server/app/models/availability.py:20-21 | the table starts empty |
| AvailabilityEndpoints.AvailabilityTable.Save | server/app/api/endpoints/availability.py:18-46 | the table after the save is `SaveAll` of the old one, and the answer is 204 with no body |
| AvailabilityEndpoints.AvailabilityTable.SaveEntry | server/app/api/endpoints/availability.py:25-42 | one pass of the loop leaves the table at `Upsert` of the old one |
| AvailabilityEndpoints.AvailabilityTable.GetAll | server/app/api/endpoints/availability.py:49-54 | get-all returns exactly the rows whose user is the current user |
| AvailabilityEndpoints.AvailabilityTable.GetByDay | server/app/api/endpoints/availability.py:57-70 | the row for the normalised day, or 404 "Availability not found" |
| AvailabilityEndpoints.AvailabilityTable.DeleteByDay | server/app/api/endpoints/availability.py:73-87 | delete-by-day removes exactly that row and answers 204, or answers 404 and changes nothing |
| AvailabilityEndpoints.AvailabilityTable.DeleteAll | server/app/api/endpoints/availability.py:90-101 | delete-all removes every row of the user, keeps all others, and answers 204 even when there were none |
| AvailabilityEndpoints.AvailabilityTable.DeleteRows | server/app/api/endpoints/availability.py:95-99 | deleting the rows found removes exactly the listed keys and keeps every other row as it was |
| ErrorMessage.ItemLines | frontend/src/lib/utils.ts:19-20 | one "Invalid <last loc element>" line per list item, in order |
| ErrorMessage.GetErrorMessage | frontend/src/lib/utils.ts:10-25 | the decoder throws exactly when the payload is missing or the detail is a list of objects one of which has no `loc` |
| ErrorMessage.TextAndOtherMessages | frontend/src/lib/utils.ts:13-24 | a string detail is returned unchanged; a detail that is neither a string nor a list gives "An unexpected error occurred." |
| ErrorMessage.EmptyListMessage | frontend/src/lib/utils.ts:15-21 | an empty detail list gives the empty text |
| ErrorMessage.ScalarItemMessage | frontend/src/lib/utils.ts:15-24 | one element that is not an object makes the whole list an unexpected error, even beside an element without `loc` |
| ErrorMessage.LocLessItemThrows | frontend/src/lib/utils.ts:16-20 | a list of objects with a `null` or `loc`-less one among them throws |
| ErrorMessage.MessageIgnoresMsg | frontend/src/lib/utils.ts:19-20 | the text never depends on an item's `msg` or `type` |
| ErrorMessage.LineHasNoBreak | frontend/src/lib/utils.ts:20 | a line holds no line break when its `loc` element holds none |
| ErrorMessage.MessageLines | frontend/src/lib/utils.ts:19-21 | splitting the message at "\n" gives back the item lines, in order |
| AuthSlice.PendingClears | frontend/src/features/auth/slice.ts:66-69 | every pending case sets loading and clears both texts, except the current-user one, which only sets loading (also lines 82-84, 94-97, 109-112, 124-127, 139-142, 154-157, 170-173) |
| AuthSlice.Step | frontend/src/features/auth/slice.ts:43-183 | a throwing rejection leaves the state as it was; the plain reducers never touch the user or the token; every pending case sets loading and keeps the user and the token |
| AuthSlice.SettledStopsLoading | frontend/src/features/auth/slice.ts:70-183 | every fulfilled case and every rejected case that does not throw clears loading; one that throws changes nothing |
| AuthSlice.ThrowingRejectionKeepsLoading | frontend/src/features/auth/slice.ts:197-212 | a request rejected with no payload, or with a `loc`-less object in its detail list, stays loading after its pending case |
| AuthSlice.RejectedDecodes | frontend/src/features/auth/slice.ts:76-80 | a rejection whose payload decodes clears the success text and loading, keeps the user, and sets the decoded error; one whose payload throws changes nothing (also lines 197-212) |
| AuthSlice.FulfilledSuccessText | frontend/src/features/auth/slice.ts:70-75 | forgot, change, reset and verify set their fixed success text and clear the error (also lines 98-102, 113-117, 174-178) |
| AuthSlice.FulfilledUser | frontend/src/features/auth/slice.ts:128-132 | sign-in stores the token and keeps the user; sign-up sets the user and stores the token; sign-out clears the user (also lines 143-147, 158-163) |
| AuthSlice.CurrentUserKeepsTexts | frontend/src/features/auth/slice.ts:82-92 | the current-user cases never touch the texts; its rejection keeps the user and drops the stored token |
| AuthSlice.LifecycleKeepsExclusive | frontend/src/features/auth/slice.ts:66-183 | every request-lifecycle case leaves at most one of error and success set |
| AuthSlice.SetErrorBreaksExclusive | frontend/src/features/auth/slice.ts:53-61 | from any state, `setSuccess` then `setError` sets exactly those two texts and leaves both set |
| AuthSlice.AuthStore.constructor | frontend/src/features/auth/slice.ts:33-38 | the initial state: no user, loading, no error, no success, and the token local storage already holds |
| AuthSlice.AuthStore.UpdateErrorState | frontend/src/features/auth/slice.ts:197-212 | it throws exactly when the decoder does, and then changes nothing; otherwise only `error` changes, to the decoded text |
| AuthSlice.AuthStore.Dispatch | frontend/src/features/auth/slice.ts:43-183 | dispatching an action moves the store to `Step` of its old state and reports whether the reducer threw |
| UseRequest.FailurePayload | frontend/src/hooks/use-request.ts:49-52 | the payload is never missing; a non-Axios failure reads the fixed `{detail: "An error occurred"}`; an Axios failure reads the response body's `detail`, and a string or falsy body (the message string then) has no object `detail` |
| UseRequest.FailureTexts | frontend/src/hooks/use-request.ts:49-55 | a plain failure shows "An error occurred"; an Axios failure with a falsy or string body shows "An unexpected error occurred."; a body listing a `loc`-less object throws |
| UseRequest.ErrorToastInverted | frontend/src/hooks/use-request.ts:62 | as written: a configured prefix is dropped, an empty one shows ":", a missing one shows "undefined:" |
| UseRequest.ErrorToastText | frontend/src/hooks/use-request.ts:62 | the error toast description as written, with its prefix condition inverted; `ErrorToastInverted` states its values |
| UseRequest.IntendedErrorToastText | frontend/src/hooks/use-request.ts:59-66 | the evidently intended toast: the configured prefix and a colon, or no prefix when none is configured |
| UseRequest.ErrorToastDiffers | frontend/src/hooks/use-request.ts:62 | the written text and the intended one differ on every input |
| UseRequest.SuccessRun | frontend/src/hooks/use-request.ts:33-46 | the success handler's calls up to a throw; without a throw they are the success effects, and it throws exactly when the throwing call is one it makes |
| UseRequest.ThrowingSuccessRun | frontend/src/hooks/use-request.ts:36-45 | a throwing callback stops the handler before the toast; a throwing toast comes after the callback |
| UseRequest.SuccessEffectsOrder | frontend/src/hooks/use-request.ts:36-45 | the success callback gets the result before any toast; the toast appears only when asked for, with the success message or "" |
| UseRequest.FailureEffectsOrder | frontend/src/hooks/use-request.ts:56-66 | the error callback gets the raw failure before any toast; no toast unless asked for; a handler that throws runs neither |
| UseRequest.RequestHook.constructor | frontend/src/hooks/use-request.ts:25-26 | the hook starts not loading and with no error |
| UseRequest.RequestHook.Request | frontend/src/hooks/use-request.ts:30-32 | `request` sets loading and clears the error before the call |
| UseRequest.RequestHook.Resolve | frontend/src/hooks/use-request.ts:33-67 | success: loading off, no error, then the success effects; when the success callback or toast throws, the chained `.catch` sets "An error occurred" and the error effects follow the success calls made so far |
| UseRequest.RequestHook.Reject | frontend/src/hooks/use-request.ts:47-68 | failure: loading off; the error is the decoded payload text and the failure effects follow, or, when decoding throws, the error and the effects stay as they were |
| NotificationsSlice.AddToFeed | frontend/src/features/notifications/slice.ts:23-28 | the new notification comes first, then the old feed without its last element; a non-empty feed keeps its length and an empty one becomes one long |
| NotificationsSlice.AddShifts | frontend/src/features/notifications/slice.ts:24-27 | every notification but the oldest moves one place down |
| NotificationsSlice.AddManyKeepsLength | frontend/src/features/notifications/slice.ts:24-27 | adding any number of notifications to a non-empty feed keeps its length |
| NotificationsSlice.NotificationStore.constructor | frontend/src/features/notifications/slice.ts:13-17 | both lists start empty, and loading is on |
| NotificationsSlice.NotificationStore.AddNotification | frontend/src/features/notifications/slice.ts:23-28 | only the recent feed changes, to `AddToFeed`; the full list is never modified |
| NotificationsSlice.NotificationStore.RecentPending | frontend/src/features/notifications/slice.ts:31-33 | pending sets loading and nothing else |
| NotificationsSlice.NotificationStore.RecentFulfilled | frontend/src/features/notifications/slice.ts:34-37 | fulfilled replaces the recent feed and clears loading |
| NotificationsSlice.NotificationStore.RecentRejected | frontend/src/features/notifications/slice.ts:38-40 | rejected only clears loading |
| ThemeSlice.LoadMode | client/src/features/theme/slice.ts:5-10 | the stored mode is kept when it is "light" or "dark"; otherwise the mode is "light", and "light" is written back when something else was stored |
| ThemeSlice.Toggled | client/src/features/theme/slice.ts:21 | "light" becomes "dark", any other value becomes "light" |
| ThemeSlice.ToggleTwice | client/src/features/theme/slice.ts:21 | toggling twice is the identity on "light" and "dark" |
| ThemeSlice.ThemeStore.constructor | client/src/features/theme/slice.ts:5-14 | a stored "light" or "dark" is the mode and stays stored; any other stored value gives "light", written back; nothing stored gives "light" and storage stays empty |
| ThemeSlice.ThemeStore.ToggleMode | client/src/features/theme/slice.ts:20-23 | the mode flips, and the stored value equals the new mode |
| HeaderUnread.Unread | client/src/components/header.tsx:54-58 | the unread notifications are exactly those with `read` false |
| HeaderUnread.UnreadBounded | client/src/components/header.tsx:54-58 | there are never more unread notifications than notifications |
| HeaderUnread.UnreadExtremes | client/src/components/header.tsx:54-58 | an all-read list gives none; an all-unread list gives the whole list |
| HeaderUnread.CountUnread | client/src/components/header.tsx:52-60 | the `forEach` counter equals the number of unread notifications, at most the list length, and 0 for an empty list |
| HeaderUnread.Header.constructor | client/src/components/header.tsx:50 | the badge starts at 0 |
| HeaderUnread.Header.FeedChanged | client/src/components/header.tsx:52-60 | a new list is recounted from zero, not updated incrementally |
| ConnectionManager.RemoveFirst | server/app/core/socket.py:17 | `list.remove` drops one occurrence of the socket and keeps all others |
| ConnectionManager.FirstIndex | server/app/core/socket.py:17 | the position `list.remove` looks for holds the socket, and no earlier position does |
| ConnectionManager.RemoveFirstOccurrence | server/app/core/socket.py:17 | the copy removed is the first one, and the other sockets keep their order |
| ConnectionManager.FlattenHas | server/app/core/socket.py:26-29 | every connection of a listed user is among the broadcast's recipients |
| ConnectionManager.FlattenOnly | server/app/core/socket.py:26-29 | and no other socket is |
| ConnectionManager.Manager.constructor | server/app/core/socket.py:7-8 | a new manager has no connections |
| ConnectionManager.Manager.Connect | server/app/core/socket.py:10-14 | the socket is appended to the end of the user's list, which is created when absent; other users are unchanged; no user maps to an empty list |
| ConnectionManager.Manager.Disconnect | server/app/core/socket.py:16-19 | one occurrence is removed and the user's key is deleted when the list empties; a missing user is a KeyError and a socket not in the list a ValueError, and both change nothing |
| ConnectionManager.Manager.RemoveSocket | server/app/core/socket.py:17-19 | removing a listed socket keeps each user's list non-empty |
| ConnectionManager.Manager.PersonalRecipients | server/app/core/socket.py:21-24 | a personal message goes to the user's connections in list order, and to nobody for an absent user |
| ConnectionManager.FlattenBlocks | server/app/core/socket.py:26-29 | the recipients are each user's list in its own order, one user after another in key order |
| ConnectionManager.Manager.BroadcastRecipients | server/app/core/socket.py:26-29 | a broadcast goes to exactly the connections of every user, user by user in key insertion order, each user's list in its own order |
| ConnectionManager.Without | server/app/core/socket.py:19 | deleting a key leaves exactly the other keys |
| ConnectionManager.WithoutDistinct | server/app/core/socket.py:19 | the keys stay free of repetitions |
| NotificationService.NotificationsPath | client/src/api/services/notification-service.ts:11-13 | the path always starts with "/notifications"; no limit, or a limit of 0, adds nothing; any other limit n adds "?limit=n" |
| NotificationService.LimitReadBack | client/src/api/services/notification-service.ts:12 | a positive limit can be read back from the path |
| ServiceSchema.CoerceNumber | frontend/src/lib/schemas/services/index.ts:16 | `z.coerce.number()` keeps a number; a text goes through JavaScript `Number`, so the empty text becomes 0 |
| ServiceSchema.CoercePrintedPrice | frontend/src/lib/schemas/services/index.ts:16 | the decimal text of a price coerces back to that price |
| ServiceSchema.SchemaAsWritten | frontend/src/lib/schemas/services/index.ts:9-36 | the shared schema as written: the field and file rules and the count refinement `files.length > MAX_IMAGES_COUNT` |
| ServiceSchema.Schema | frontend/src/lib/schemas/services/index.ts:9-36 | the same field and file rules with the count refinement corrected to at most the maximum |
| ServiceSchema.AsWrittenNeedsTooManyFiles | frontend/src/lib/schemas/services/index.ts:9-36 | as written, a form passes iff its fields and files are valid and it has MORE than the maximum number of files, so an undefined, empty or within-limit list always fails |
| ServiceSchema.AsWrittenRejectsExample | frontend/src/lib/schemas/services/index.ts:31-33 | a form with one valid file passes the corrected schema and fails the written one |
| ServiceSchema.SchemaMeaning | frontend/src/lib/schemas/services/index.ts:9-36 | the corrected schema: the four texts non-empty, pricing type "fixed" or "hourly", the coerced price at least 1, the media defined, at most the maximum, and every file within the size limit and of an accepted type; tags are free |
| ServiceSchema.SchemaKeptByRemoval | frontend/src/lib/schemas/services/index.ts:17-33 | removing a file with `splice(index, 1)` keeps a valid form valid |
| AddService.FormSchemaMedia | frontend/src/pages/add-service.tsx:57-79 | with the other fields valid, the page's schema passes iff the media is defined and every file is within 5,000,000 bytes and of the four types; an empty list passes, an undefined one fails |
| AddService.DefaultFormRejected | frontend/src/pages/add-service.tsx:87-99 | the default values fail only because the text fields are empty |
| AddService.Zip | frontend/src/pages/add-service.tsx:117-121 | files and previews pair up position by position |
| AddService.SpliceZip | frontend/src/pages/add-service.tsx:127-138 | removing the same index from both lists removes one pair and keeps them aligned |
| AddService.ZipAppend | frontend/src/pages/add-service.tsx:117-121 | appending a batch to both lists keeps the old pairs first, then the new ones |
| AddService.AppendThenRemove | frontend/src/pages/add-service.tsx:117-138 | removing the last index after appending one file undoes the append |
| AddService.ServiceFormState.constructor | frontend/src/pages/add-service.tsx:82-99 | the page mounts with the default values, no files and no previews |
| AddService.ServiceFormState.FileChange | frontend/src/pages/add-service.tsx:101-125 | a batch that would pass the limit (10 here, `MAX_IMAGES_COUNT` on the edit page, frontend/src/pages/edit-service.tsx:86-110) is refused with a toast and nothing changes; otherwise files and previews get the batch appended in order and the form's media is the combined list; files and previews keep equal lengths and never exceed the limit |
| AddService.ServiceFormState.RemoveFile | frontend/src/pages/add-service.tsx:127-138 | `splice(index, 1)` on both lists (the same on the edit page, frontend/src/pages/edit-service.tsx:112-123); an index past the end changes nothing; the form's media is the new list |
| EditService.MediaUrl | frontend/src/pages/edit-service.tsx:151 | each media file is fetched from `<API base>/files/<stored url>` |
| EditService.FetchedFile | frontend/src/pages/edit-service.tsx:49-59 | the fetched file is named by the stored url, with the blob's size and type, or "image/jpeg" when the blob has no type |
| EditService.FetchedFiles | frontend/src/pages/edit-service.tsx:150-153 | one file per media row, in order |
| EditService.TagTexts | frontend/src/pages/edit-service.tsx:155-158 | the tags become their texts, in order |
| EditService.UpdateForm | frontend/src/pages/edit-service.tsx:145-168 | title becomes name and pricing_type becomes pricingType; pricing, description, category and location are copied; files and previews are replaced by the loaded media, not appended to; when a media fetch fails, only name, pricing, description and category are set, and media, location, tags, pricing type, files and previews keep their values |
| EditService.LoadedServiceRejected | frontend/src/pages/edit-service.tsx:72-73 | a loaded service with no more files than the limit fails the shared schema as written (also lines 145-168) |
| EditService.LoadedFieldsValid | frontend/src/pages/edit-service.tsx:145-159 | a service with valid fields loads into a form whose fields are valid |
| EditService.NavigationOnError | frontend/src/pages/edit-service.tsx:196-210 | a failed fetch navigates to "/not-found" exactly on an Axios 404 |
| ClientAddService.Schema | client/src/pages/add-service.tsx:32-55 | the client schema: pricing type, a number price of at least 1, one file within the size limit and of an accepted type |
| ClientAddService.SchemaMeaning | client/src/pages/add-service.tsx:32-55 | the client schema passes iff the pricing type is "fixed" or "hourly", the price is already a number of at least 1, and the media is one file within 5,000,000 bytes of the four types |
| ClientAddService.TextFieldsUnchecked | client/src/pages/add-service.tsx:33-41 | the text fields and tags accept any value, the empty string included (also lines 51-54) |
| ClientAddService.DefaultsAndTextPrice | client/src/pages/add-service.tsx:43-50 | the defaults fail because media is undefined, a single valid picture passes, and a price typed as text always fails where the shared schema would coerce it (also lines 61-70) |
| ServicesClient.TagEntries | frontend/src/api/services/services-service.ts:15-17 | one "tags" entry per tag, in order |
| ServicesClient.MediaEntries | frontend/src/api/services/services-service.ts:19-23 | one "media" entry per file, in order, and none when media is absent |
| ServicesClient.GetAll | frontend/src/api/services/services-service.ts:7-23 | reading a key back gives no more values than there are entries |
| ServicesClient.GetAllAppend | frontend/src/api/services/services-service.ts:7-23 | reading a key back from two bodies appended is the first body's values, then the second's |
| ServicesClient.GetAllAbsent | frontend/src/api/services/services-service.ts:7-23 | a key no entry has reads back as nothing |
| ServicesClient.GetAllOnly | frontend/src/api/services/services-service.ts:7-23 | entries that all have the key read back as their values, in order |
| ServicesClient.Body | frontend/src/api/services/services-service.ts:6-23 | the body `createService` builds: the six scalar entries, then one per tag, then one per file; the lemmas below state its layout |
| ServicesClient.BodyLayout | frontend/src/api/services/services-service.ts:8-23 | the first six entries are name, category, description, pricing_type, pricing (as its decimal text) and location; then the tags; then the files; empty tags or media add nothing |
| ServicesClient.BodyTags | frontend/src/api/services/services-service.ts:15-17 | the body's "tags" values are the tags in order |
| ServicesClient.BodyMedia | frontend/src/api/services/services-service.ts:19-23 | the body's "media" values are the files in order, none when media is absent |
| ServicesClient.BodyPricing | frontend/src/api/services/services-service.ts:12 | the body holds exactly one price, as its decimal text |
| ServicesClient.CreateFormData | frontend/src/api/services/services-service.ts:6-23 | the appends, step by step, build exactly that body |
| ServiceCrud.Extension | server/app/crud/service.py:41 | the extension is the text after the last ".", without a dot in it; a name without a dot is its own extension |
| ServiceCrud.MediaRows | server/app/crud/service.py:34-54 | one media row per upload, in order |
| ServiceCrud.StoredFiles | server/app/crud/service.py:40-50 | one raw and one compressed file per upload, in order |
| ServiceCrud.DottedExtension | server/app/crud/service.py:41-43 | a name ending in "." and an extension without a dot has that extension |
| ServiceCrud.StoredExtensions | server/app/crud/service.py:41-53 | the stored url and the raw file keep the upload's extension |
| ServiceCrud.StoredPaths | server/app/crud/service.py:11 | the raw file is "./files/<id>.<ext>", the compressed one "./files/<id>_compressed.<ext>", which is "./files/" and the url; the two paths differ (also lines 42-43, 53) |
| ServiceCrud.NoDotExtension | server/app/crud/service.py:41-53 | a file named "photo" is stored as "<id>_compressed.photo" |
| ServiceCrud.ServiceRecord.constructor | server/app/crud/service.py:16-27 | a new service copies the six fields and takes the user's id as provider, with no tags and no media |
| ServiceCrud.ServiceRecord.AddTags | server/app/crud/service.py:29-32 | one tag row per text, in order; nothing else changes |
| ServiceCrud.ServiceRecord.AddMedia | server/app/crud/service.py:34-56 | one media row per upload, inserted with an empty url that is then set to the compressed name, and two files written |
| ServiceCrud.ServiceRecord.Update | server/app/crud/service.py:61-106 | the six fields are overwritten, every old tag and media row goes, and the new ones come in: the tags are exactly the new list |
| ServiceCrud.CreateService | server/app/crud/service.py:15-58 | create: the fields, the provider, the tags in order and one media row per upload |
| AuthPageCleanup.UnmountClears | client/src/pages/sign-up.tsx:77-83 | leaving an auth page (`resetError`, `resetLoading`, `resetSuccess`, the same in every auth page) clears both texts and loading and keeps the user and the token |
| SignUpPage.UsernameRange | frontend/src/pages/sign-up.tsx:64-79 | with a name, an accepted e-mail and a password of at least 6, the form passes iff the username has 3 to 12 UTF-16 code units; a username of 3 to 12 characters below U+10000 passes, 12 included, although the message says 3-9 |
| SignUpPage.AstralUsername | frontend/src/pages/sign-up.tsx:68-71 | two characters beyond U+FFFF count as four units and pass as a username |
| SignUpPage.Schema | frontend/src/pages/sign-up.tsx:64-79 | a name, a username of 3 to 12 code units, an accepted e-mail and a password of at least 6 code units |
| SignUpPage.Dto | frontend/src/pages/sign-up.tsx:103 | the DTO is the form values plus the role |
| SignUpPage.Navigation | frontend/src/pages/sign-up.tsx:104-117 | a successful sign-up, or a user already present, navigates to "/", and nothing else does |
| SignUpPage.RoleState.constructor | frontend/src/pages/sign-up.tsx:85 | the role starts as "customer" |
| SignUpPage.RoleState.SetRole | frontend/src/pages/sign-up.tsx:146-153 | the dropdown sets the role to "customer" or "provider" |
| SignUpPage.RoleState.SubmitDto | frontend/src/pages/sign-up.tsx:100-111 | the DTO carries the role selected at submission time |
| ClientSignUpPage.ClientDto | client/src/pages/sign-up.tsx:58-69 | the client's sign-up DTO always has role "customer" (its schema, client/src/pages/sign-up.tsx:24-38, is `SignUpPage.Schema`) |
| SignInPage.Schema | frontend/src/pages/sign-in.tsx:42-49 | any username and a password of at least one code unit |
| SignInPage.SchemaIgnoresUsername | frontend/src/pages/sign-in.tsx:42-49 | any username passes, the empty one included; the password must be non-empty (the same in client/src/pages/sign-in.tsx) |
| SignInPage.RedirectTarget | frontend/src/pages/sign-in.tsx:58 | the target is `from.pathname` when present and non-empty, else "/" |
| SignInPage.SubmitEffects | frontend/src/pages/sign-in.tsx:69-85 | the current user is requested only after sign-in succeeds, and navigation with replace happens only after both succeed (the same in client/src/pages/sign-in.tsx:51-67) |
| SignInPage.UserPresentRedirect | frontend/src/pages/sign-in.tsx:87-91 | a user already present is sent to the target at once, with replace |
| ChangePasswordPage.Schema | client/src/pages/change-password.tsx:25-30 | a current password of at least one code unit and a new one of at least 6 |
| ChangePasswordPage.Dto | client/src/pages/change-password.tsx:46-52 | the form values renamed to `current_password` and `new_password`; `DtoRoundTrip` shows nothing is lost |
| ChangePasswordPage.DtoRoundTrip | client/src/pages/change-password.tsx:25-52 | password is sent as current_password and newPassword as new_password, and nothing is lost in the renaming |
| ChangePasswordPage.AfterRequest | client/src/pages/change-password.tsx:53-58 | the form is reset only when the change succeeds |
| ResetPasswordPage.Schema | client/src/pages/reset-password.tsx:29-33 | a password of at least 6 code units |
| ResetPasswordPage.Dto | client/src/pages/reset-password.tsx:53 | the DTO is the form values plus the token from the query string |
| ResetPasswordPage.TokenEffect | client/src/pages/reset-password.tsx:71-76 | a missing or empty token sets the error "Invalid token", and only then |
| ResetPasswordPage.MissingTokenGuard | client/src/pages/reset-password.tsx:71-76 | a missing token shows "Invalid token" and keeps submit disabled; an enabled submit always has a token for the DTO (also line 141) |
| ResetPasswordPage.AfterRequest | client/src/pages/reset-password.tsx:54-58 | a successful reset clears the form |
| RequireAuth.Render | frontend/src/components/require-auth.tsx:23-27 | the spinner is shown exactly while loading, whatever the user |
| RequireAuth.Effect | frontend/src/components/require-auth.tsx:14-21 | a redirect to "/sign-in" with replace and `from` set to the current location happens iff not loading and no user |
| RequireAuth.ChildrenBeforeRedirect | frontend/src/components/require-auth.tsx:14-27 | when not loading, the children are rendered even while a redirect is pending; a present user is never redirected |
| RequireAuth.LoadingNeverRedirects | frontend/src/components/require-auth.tsx:15 | nothing redirects while loading |
| RequireAuth.RedirectRoundTrip | frontend/src/components/require-auth.tsx:15-20 | the sign-in page sends the user back to the location the guard recorded, or to "/" for an empty one |
| CalendarPage.FindIndex | frontend/src/pages/calendar.tsx:148 | `findIndex` gives the first event with the id, and -1 exactly when there is none |
| CalendarPage.Moved | frontend/src/pages/calendar.tsx:147-153 | a move keeps the length and puts the moved event, with the id and the new date, last; it fails only on an empty list, where `arr[0]` is undefined |
| CalendarPage.MoveFound | frontend/src/pages/calendar.tsx:147-153 | the found event is removed, the others keep their order, and `{id, removed title, date: to}` is appended |
| CalendarPage.MoveNotFound | frontend/src/pages/calendar.tsx:148-151 | an unknown id makes `splice(-1, 1)` take the last event, which is re-appended under the given id and date |
| CalendarPage.MoveBack | frontend/src/pages/calendar.tsx:144-155 | with distinct ids, moving an event away and back restores its date, and the event ends up last |
| CalendarPage.NewEvent | frontend/src/pages/calendar.tsx:214-221 | Save creates "New Event" on the cell's date, with the clock's value as its decimal id |
| CalendarPage.OnDate | frontend/src/pages/calendar.tsx:176-178 | a cell lists only events of its date |
| CalendarPage.OnDateExactly | frontend/src/pages/calendar.tsx:176-178 | a cell lists exactly the events whose date text equals the cell's date |
| CalendarPage.AddedEventShown | frontend/src/pages/calendar.tsx:176-178 | a saved event appears last in its own cell and in no other (also lines 214-221) |
| CalendarPage.CalendarState.constructor | frontend/src/pages/calendar.tsx:121-127 | the page starts with its one sample event |
| CalendarPage.CalendarState.MoveEvent | frontend/src/pages/calendar.tsx:144-155 | from == to leaves the list unchanged; otherwise the list becomes `Moved`; an empty list, which crashes the source, is reported and kept |
| CalendarPage.CalendarState.AddEvent | frontend/src/pages/calendar.tsx:213-221 | Save appends the new event and keeps all others |
| CalendarPage.CalendarState.RenderCells | frontend/src/pages/calendar.tsx:157-245 | the month grid is always 6 rows of 7 cells, and cell k shows the events of the k-th date |
| DropCalendar.Drop | frontend/src/components/Calendar.tsx:21-23 | a drop appends `{id, day}` and keeps every existing entry |
| DropCalendar.DayEvents | frontend/src/components/Calendar.tsx:29-31 | a day column shows only entries of that day, in drop order |
| DropCalendar.DropShown | frontend/src/components/Calendar.tsx:21-31 | a dropped entry appears last in its own column and in no other |
| DropCalendar.DropKeepsCopies | frontend/src/components/Calendar.tsx:19-23 | the same id dropped into two days shows in both, and twice into one day shows twice: no move, no deduplication |
| Grid.Without | frontend/src/components/Grid.tsx:88-90 | a filtered cell no longer holds the item and holds nothing new |
| Grid.WithoutCounts | frontend/src/components/Grid.tsx:88-90 | the filter drops every copy of the item and keeps every other id as often as before |
| Grid.WithoutAbsent | frontend/src/components/Grid.tsx:88-90 | a cell without the item is unchanged |
| Grid.SourceCell | frontend/src/components/Grid.tsx:85 | the first cell holding the item, or -1 when none does |
| Grid.Moved | frontend/src/components/Grid.tsx:84-95 | no change when the item's first cell is the target; otherwise the move fails only for a target outside the grid, where the source crashes |
| Grid.MovedOnce | frontend/src/components/Grid.tsx:87-93 | after a move the item occurs exactly once, last in the target cell; every other id keeps its count in every cell |
| Grid.MoveAbsent | frontend/src/components/Grid.tsx:85-93 | an item in no cell is still appended to the target |
| Grid.MovedKnown | frontend/src/components/Grid.tsx:84-95 | a move of a known item keeps every cell holding only known item ids |
| Grid.InitialIdsSequential | frontend/src/components/Grid.tsx:65-69 | the three initial items have ids 1, 2 and 3 |
| Grid.Cell.constructor | frontend/src/components/Grid.tsx:77-80 | a new cell is empty |
| Grid.GridState.Contents | frontend/src/components/Grid.tsx:71 | the grid's value is the cells' id lists, in order |
| Grid.GridState.constructor | frontend/src/components/Grid.tsx:65-71 | the three items, an empty grid and an empty text (also line 108) |
| Grid.GridState.InitGrid | frontend/src/components/Grid.tsx:74-82 | the grid becomes 9 new empty cells |
| Grid.GridState.MoveItem | frontend/src/components/Grid.tsx:84-95 | the cells become `Moved` of the old ones, in new cell objects; a failing move changes nothing |
| Grid.GridState.AddItem | frontend/src/components/Grid.tsx:97-106 | the new item gets id `items.length + 1` and is appended to items, and its id is pushed into cell 0 in place; with no cell yet nothing changes |
| Grid.GridState.SetText | frontend/src/components/Grid.tsx:108 | only the text changes |
| Grid.GridState.Submit | frontend/src/components/Grid.tsx:117-124 | a text that is empty after `trim` adds nothing; any other adds one item and clears the text |
| Grid.GridState.AddAndClear | frontend/src/components/Grid.tsx:120-123 | the non-blank branch: one item added and the text cleared, or nothing changed when there is no cell |
| Grid.GridState.PushFirst | frontend/src/components/Grid.tsx:101-104 | only the first cell grows, by the id at its end; a known id keeps every cell known |
| Grid.PushKnown | frontend/src/components/Grid.tsx:103 | pushing a known id keeps every cell holding only known ids |
| Grid.FilterCells | frontend/src/components/Grid.tsx:88-90 | one new, distinct cell per old one, holding the old ids without the item |
| Grid.MovedCells | frontend/src/components/Grid.tsx:88-92 | the new cells of a move: filtered copies with the item appended to the target |
| Grid.MovedIs | frontend/src/components/Grid.tsx:84-95 | the cells a move builds are exactly `Moved` of the old grid, and known ids stay known |
| AdvancedCalendar.TimeSlots | frontend/src/components/AdvancedCalendar.tsx:98-111 | exactly 24 slots, labelled "0:00" to "23:00" by their index |
| AdvancedCalendar.HourOf | frontend/src/components/AdvancedCalendar.tsx:221-222 | the hour is `parseInt` of the text before the first ":", the whole text when there is none |
| AdvancedCalendar.HourOfClock | frontend/src/components/AdvancedCalendar.tsx:221-222 | the digits before the first ":" are the hour, whatever follows |
| AdvancedCalendar.PaddedHour | frontend/src/components/AdvancedCalendar.tsx:221-222 | minutes are ignored: "09:30" starts in slot 9 |
| AdvancedCalendar.SlotLabelHour | frontend/src/components/AdvancedCalendar.tsx:106 | each slot's label reads back as its index (also line 221) |
| AdvancedCalendar.Occupies | frontend/src/components/AdvancedCalendar.tsx:221-223 | `eventStart <= index && eventEnd > index`, false when either hour is NaN |
| AdvancedCalendar.OccupiesExactly | frontend/src/components/AdvancedCalendar.tsx:221-223 | an event from "HH:mm" to "HH:mm" is in slot i iff start hour <= i < end hour, whatever the minutes, so an end at or before the start occupies no slot; an empty start time occupies none (also line 281) |
| AdvancedCalendar.OnDate | frontend/src/components/AdvancedCalendar.tsx:132-134 | a month cell lists only events of its date |
| AdvancedCalendar.OnDateExactly | frontend/src/components/AdvancedCalendar.tsx:132-134 | a month cell lists exactly the events whose date text equals the cell's |
| AdvancedCalendar.SlotEvents | frontend/src/components/AdvancedCalendar.tsx:213-223 | a week-view slot shows only events of that day occupying that hour |
| AdvancedCalendar.SlotEventsExactly | frontend/src/components/AdvancedCalendar.tsx:213-223 | it shows exactly those events |
| WeeklyCalendar.Hours | frontend/src/components/WeeklyCalendar.tsx:12-15 | 24 labels, "00:00" to "23:00", zero-padded |
| WeeklyCalendar.TimeOffset | frontend/src/components/WeeklyCalendar.tsx:22-25 | a text without ":" gives NaN |
| WeeklyCalendar.ClockOffset | frontend/src/components/WeeklyCalendar.tsx:22-25 | "HH:MM" gives HH * 60 + MM, for digit runs of any length |
| WeeklyCalendar.TimeOffsetPadded | frontend/src/components/WeeklyCalendar.tsx:22-25 | a zero-padded clock text h:m gives h * 60 + m |
| WeeklyCalendar.HoursOffsets | frontend/src/components/WeeklyCalendar.tsx:12-25 | the i-th hour label is 60 * i minutes |
| WeeklyCalendar.HoursDistinct | frontend/src/components/WeeklyCalendar.tsx:12-15 | the 24 labels are all different |
| WeeklyCalendar.DayColumn | frontend/src/components/WeeklyCalendar.tsx:51-52 | a column shows only events of its day |
| WeeklyCalendar.DayColumnExactly | frontend/src/components/WeeklyCalendar.tsx:51-52 | an event is placed only in, and always in, the column whose index is its day |
| WeeklyCalendar.Span | frontend/src/components/WeeklyCalendar.tsx:54-56 | the height is the end offset minus the start offset, defined when both parse, and negative exactly when the end precedes the start |
| WeeklyCalendar.Duration | frontend/src/components/WeeklyCalendar.tsx:54-56 | an event's height is the `Span` of its start and end |
| WeeklyCalendar.DurationPadded | frontend/src/components/WeeklyCalendar.tsx:54-56 | an event from one zero-padded "HH:MM" to another is as tall as the minutes between them, negative when it ends first |
| WeeklyCalendar.StaticColumns | frontend/src/components/WeeklyCalendar.tsx:16-20 | the three static events fall one each into columns 1, 2 and 3, and every other column, 0 and 4-6 included, is empty (also lines 51-52) |
| Util.Split | server/app/crud/service.py:41 | `split` yields at least one part, none holding the separator |
| Util.SplitJoin | server/app/crud/service.py:41 | joining the parts with the separator gives the text back |
| Util.Strip | server/app/api/endpoints/availability.py:27 | `strip()` leaves no whitespace at either end |
| Util.StripPadded | server/app/api/endpoints/availability.py:27 | one whitespace character added at each end is stripped again |
| Util.LowerCharWhitespace | server/app/api/endpoints/availability.py:27 | lower-casing never makes or removes whitespace and leaves no upper-case ASCII letter |
| Util.Utf16Length | frontend/src/pages/sign-up.tsx:64-79 | a JavaScript length is between the number of characters and twice that |
| Util.Utf16LengthBmp | frontend/src/pages/sign-up.tsx:64-79 | below U+10000 every character is one code unit |
| Util.LowerWordStripped | server/app/api/endpoints/availability.py:27 | normalising a lower-case word without whitespace changes nothing |
| Util.JsNumberStripped | frontend/src/components/WeeklyCalendar.tsx:23 | `Number` ignores surrounding whitespace |
| Util.JsNumberDigits | frontend/src/components/WeeklyCalendar.tsx:23 | `Number` of a digit run is its decimal value |
| Util.JsNumber | frontend/src/components/WeeklyCalendar.tsx:23 | `Number` of a text: whitespace at the ends skipped, "" is 0, a signed digit run is its value, anything else NaN; `JsNumberStripped` and `JsNumberDigits` state it |
| Util.ParseInt | frontend/src/components/AdvancedCalendar.tsx:221-222 | `parseInt`: leading whitespace skipped, an optional sign, the leading digit run, NaN when that run is empty; `ParseIntPrefix` states it |
| Util.ParseIntPrefix | frontend/src/components/AdvancedCalendar.tsx:221-222 | `parseInt` reads the leading digit run and ignores what follows |
| Util.SpliceOne | frontend/src/pages/calendar.tsx:150 | `splice(index, 1)` removes one element exactly when the index, counted from the end when negative and clamped into the array, lands on one |
| Util.SpliceMinusOne | frontend/src/pages/calendar.tsx:150 | `splice(-1, 1)` removes the last element |
| Util.Filter | frontend/src/components/Calendar.tsx:30 | `filter` keeps only elements that satisfy its predicate, from the list, and never lengthens it |
| Util.FilterKeeps | frontend/src/components/Calendar.tsx:30 | `filter` keeps every element that satisfies its predicate |
| Util.FilterAppend | frontend/src/components/Calendar.tsx:30 | filtering two lists appended is filtering each one |
| Util.NatToStringRoundTrip | frontend/src/api/services/services-service.ts:12 | a number's decimal text reads back as the number |
| Util.Pad2OfDigits | server/app/models/availability.py:26-27 | two digit characters read as a number and padded again are the same two characters |
| Util.DigitsOfPad2 | server/app/models/availability.py:26-27 | the two characters of `Pad2(n)` read back as n |

## Left out

- Rendering: the JSX, CSS classes, dialogs, toasts as visual elements, icons, skeletons and the theme's DOM class are not modelled; only the state and the values they show are.
- Routing and drag-and-drop libraries: react-router's `navigate` is modelled as the target and `replace` flag it receives, and react-dnd's `useDrag`/`useDrop` as the drop callbacks they call.
- HTTP: axios, the base URL, the interceptors and the FastAPI request parsing are replaced by the values they carry; each request's outcome is a parameter.
- date-fns: the month, week and day arithmetic (`startOfMonth`, `addDays`, `format`, ...) is a parameter giving each cell its date text; the day-view date normalisation of frontend/src/components/AdvancedCalendar.tsx:264-268 is not modelled.
- Floating point: JavaScript `Number` fractions, exponents, hexadecimal, `Infinity`, and `parseInt` in other radixes are not modelled; the texts read here are decimal digit runs. The rem positions of frontend/src/components/WeeklyCalendar.tsx:62-63 are left as the minute offsets they divide.
- Clocks and ids: `Date.now()`, `uuid`, the database's ids and `URL.createObjectURL` are parameters.
- File contents: the bytes of uploads, the Pillow compression and the disk writes are recorded only as the paths written.
- Persistence: `localStorage` is a field of the theme store and of the auth store (the access token, whatever it held when the store was created); the database session is the fields of the record and table classes.
- WebSocket I/O: `send_text`, `accept` and the receive loop are not modelled; the registry of connections is.
- Concurrency: React's batching, StrictMode double effects and the server's concurrent requests are not modelled; each action is one step.
- The e-mail check of zod is a parameter `isEmail`.
- `updateService` is called by frontend/src/pages/edit-service.tsx but frontend/src/api/services/services-service.ts does not define it, so the edit page's submission is not modelled.
- frontend/src/lib/constants/services is not part of this model; the size, count and type limits are a parameter `Limits`, except in the second client, whose schema states its own constants.
- The mock notifications of the header are not modelled as literal data; the unread counter works on any list.
- Grid.GridState.AddItem: the source crashes with `newGrid[0]` undefined before the grid exists; the model reports it and changes nothing.
- Grid.GridState.MoveItem: the source crashes when the target index lies outside the grid; the model reports it and changes nothing.
- CalendarPage.CalendarState.MoveEvent: moving on an empty list crashes the source (`arr[0]` is undefined after `splice`); the model reports it and keeps the list.
- WeeklyCalendar.StaticColumns: the durations of the three static events are not proved as literal numbers; their columns are.
- The second client's pages dispatch `setError` and the reset actions of an auth slice in client/src/features/auth/slice.ts, which is not part of this model; they are modelled with the frontend slice (`AuthSlice`). The client's thunks (client/src/features/auth/thunks.ts) are the same eight requests as its `Thunk` type, under the same "auth/..." action names, and reject with `error?.response?.data`, which is undefined when a request gets no response.
- AvailabilityModel.ParseClock: pydantic also reads fractions of a second, a "Z" or numeric offset (the schema's own example is "09:00:00.000Z"), and other time forms; the model reads only "HH:MM" and "HH:MM:SS" and treats every other text as not a time.
- AvailabilityModel.IsoFormat: `datetime.time` microseconds and time zones are not modelled, so `isoformat` never renders a fraction or an offset.
- Util.LowerChar: lower-cases ASCII letters only, where Python's `lower()` maps every cased letter. The day lookup accepts the same texts either way: the only non-ASCII letters `lower()` maps into ASCII are the Kelvin sign, to "k", and dotted capital I, to "i" followed by U+0307, and neither can spell a day name. This is argued here and not proved.
- ErrorMessage.GetErrorMessage: a `loc` that is present but not an array (a string, say) is not modelled; every `loc` is a list of names and indices or absent.
- AuthSlice.Step: a throwing reducer is modelled as the state staying as it was; the exception itself, which escapes `dispatch`, is not modelled.
- ServiceCrud: server/app/crud/service.py assumes a service schema and models the shipped server does not have. It imports `ServiceMedia` and `ServiceTag`, and builds `Service` with `category`, `location`, `pricing` and `pricing_type`. server/app/models/service.py defines only `id`, `title`, `description` and `provider_id`, and server/app/schemas/service.py gives `ServiceCreate` only `title` and `description`. So the module cannot be imported as shipped, and the served create endpoint (server/app/api/endpoints/services.py:12-24) never calls it. That endpoint stores only the title, the description and the provider and is not modelled. The `ServiceCrud` module models the crud text as written, assuming those models and fields exist.
- AvailabilityEndpoints.SaveAll: the table is a map keyed by (user, day). That rests on two assumptions. (1) The session autoflushes, so the `.first()` query of server/app/api/endpoints/availability.py:25-28 sees a row that `db.add` queued earlier in the same request; server/app/db/session.py is not part of this model. (2) The table never holds two rows for one (user, day); server/app/models/availability.py declares no unique constraint. Without autoflush, a body naming a day twice inserts two rows, and the map cannot represent that. The same holds for AvailabilityEndpoints.LastEntryWins and AvailabilityEndpoints.AvailabilityTable.Save.
- EditService.UpdateForm: a failed media fetch is modelled as the update stopping after the four fields set before `await`; the rejected promise, which the effect at frontend/src/pages/edit-service.tsx:170-177 leaves unhandled, is not modelled.
- Logging: `console.error(err)` in frontend/src/hooks/use-request.ts:67, the `console.log` calls after the edit page's `updateForm`, and `logger.info` in server/app/api/endpoints/availability.py:44 write only to the log and are not modelled.
- UseRequest.RequestHook.Reject: when decoding throws inside the `catch` handler the model keeps the error and the effects; the rejected promise this produces is not modelled.

## Findings

| source | as written | input that shows it | evidently intended | confidence | as-written member | corrected member |
|---|---|---|---|---|---|---|
| frontend/src/components/TimeSchedule.tsx:60, 137 | days missing from the reply are the `DEFAULT_DAYS` objects themselves, and `handleDayChange` assigns `checked` into the record in place, so an edit changes the defaults | open the editor with no saved availability, tick Saturday, open it again with none saved: Saturday is shown ticked | an edit changes only the editor's own copy, and a reopened editor shows the defaults | not executed | TimeSchedule.ReopenAfterEdit | TimeSchedule.Editor.DayChangeCopying, TimeSchedule.ReopenAfterCopyingEdit |
| frontend/src/hooks/use-request.ts:62 | the prefix is empty when `errorMessage` is set and `errorMessage + ":"` when it is not | `errorMessage` "Save failed" and message "Network Error" show " Network Error"; no `errorMessage` shows "undefined: Network Error" | the configured prefix and a colon before the message, nothing when none is configured | not executed | UseRequest.ErrorToastInverted | UseRequest.IntendedErrorToastText, UseRequest.ErrorToastDiffers |
| frontend/src/lib/schemas/services/index.ts:31-33 | the count refinement passes only when there are MORE files than the maximum, although its message says at most the maximum | a form with every field filled, price 1 and no files fails validation; so does one with one acceptable file | at most the maximum number of files passes | not executed | ServiceSchema.SchemaAsWritten, ServiceSchema.AsWrittenRejectsExample | ServiceSchema.Schema, ServiceSchema.SchemaMeaning, ServiceSchema.SchemaKeptByRemoval |
