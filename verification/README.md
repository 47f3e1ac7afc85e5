# Calendar assistant core, modelled in Dafny

This project models the core of a browser calendar with a chat assistant. The
assistant passes the user's request to a language model and runs the calendar
tools the model calls. The model covers five parts:

- **The chat exchange** (`ChatAssistant`, src/components/ChatAssistant.tsx).
  - The `handleSubmit` guard and session update.
  - The two-round `processAIResponse` exchange, including the round-1 request and the tool-call loop.
  - Dispatch to `create_event`, `list_events` and `delete_event`, and the result text of each.
  - The round-2 follow-up request and the catch-all apology.
- **The event store of the calendar context** (`CalendarStore`, src/context/CalendarContext.tsx): `addEvent`, `updateEvent` and `deleteEvent`, each written as the pure update it hands to `setEvents`.
- **The tool catalogue and the API-key choice** (`ToolRegistry`, src/lib/openai.ts): `calendarTools` and `createOpenAIClient`/`getApiKey`.
- **The cookie helpers** (`Cookies`, src/lib/cookies.ts): `getCookie`, `setCookie` and `eraseCookie`, working on the text of `document.cookie`.
- **The week grid** (`CalendarGrid`, src/components/CalendarGrid.tsx): `weekDays`, `hours`, `getEventsForDay`, and the top and height pixel arithmetic of timed events.

Support modules:

- `Wrappers` holds `Option`.
- `Text` holds `Array.join`, number printing, `String.trim` and `includes`.
- `Seqs` holds `Array.filter` and its laws.

Anything the program gets from outside becomes a parameter of the model. That covers:

- the language model (`Env.complete`);
- `JSON.parse` of tool arguments (`Env.parseArgs`);
- date formatting (`Env.formatStart`, and `toUtc` for cookies);
- `parseISO` (`parse`);
- the random id of a new event (`freshId`);
- the clock (`nowMs`);
- the system prompt.

Instants are local wall-clock milliseconds since 1 January 1970, and pixel offsets are exact reals.

The model follows the code as written, including where its behaviour may surprise a reader:

- `list_events` reads the `events` array the component was rendered with. It does not read the live store. A `create_event` earlier in the same reply is therefore not counted (`ChatAssistant.ListingIsStale`).
- Round 2 resends the unfiltered message history. Round 1 drops system messages first.
- Any truthy `tool_calls` starts round 2, an empty array included.
- `JSON.parse` runs before the tool name is examined. Unparsable arguments therefore abort the exchange for every tool, unknown names included. Arguments that parse to `null` abort it only for `create_event` and `delete_event` (`ChatAssistant.NullArguments`).
- A tool name that is neither `create_event`, `list_events` nor `delete_event` yields an empty result and no store change. That includes the advertised `set_timezone`.
- Store changes made before an exception are kept, and the exchange still answers with the apology.

## Model

| member | source | states |
|---|---|---|
| ChatAssistant.HandleSubmit | src/components/ChatAssistant.tsx:91-103 | A blank (after trimming) or in-flight input changes nothing and calls no model. Otherwise, while waiting, the user message is appended, the input is cleared and loading is on. Afterwards exactly two messages were added (the user's, then one reply), loading is off, and at most two model calls were made, the first being the round-1 request. |
| ChatAssistant.FirstSubmission | src/components/ChatAssistant.tsx:10-38 | From the initial session, which holds only the greeting, the round-1 request is the system prompt, the greeting and the input. The transcript afterwards is the greeting, the user message and one reply. |
| ChatAssistant.AcceptedSubmission | src/components/ChatAssistant.tsx:95-102 | An accepted submission appends the untrimmed input and the exchange's reply, and adopts the exchange's store and model calls. |
| ChatAssistant.ProcessAIResponse | src/components/ChatAssistant.tsx:25-89 | One or two model calls, the first always the round-1 request. The reply is the apology or the answer to the last call. A second call happens only after round 1 answered, and it follows up round 1. |
| ChatAssistant.FirstRequestDropsSystem | src/components/ChatAssistant.tsx:34-38 | The round-1 messages are the system prompt, then the history without system messages in order (filtering distributes over concatenation), then the user input. |
| ChatAssistant.RoundsShareTranscript | src/components/ChatAssistant.tsx:34-78 | With no system messages in the history, round 1 sends prompt, history and input. Round 2 sends exactly round 1's messages followed by the assistant reply and the tool messages. |
| ChatAssistant.ReplyWithoutToolCalls | src/components/ChatAssistant.tsx:43-84 | A round-1 answer without tool calls is returned as is, after one call, with the store untouched. |
| ChatAssistant.ReplyAfterToolCalls | src/components/ChatAssistant.tsx:45-81 | When every tool call completes, there is one tool message per call and exactly two model calls, the second the follow-up. The store is the one the loop left, and the reply is round 2's answer or the apology if round 2 fails. |
| ChatAssistant.ErrorsCollapse | src/components/ChatAssistant.tsx:31-88 | A failed round 1, a throwing tool call and a failed round 2 all yield the fixed apology. A throwing call ends the exchange with the store as that call left it and makes no second call. |
| ChatAssistant.FirstRequest | src/components/ChatAssistant.tsx:32-41 | The round-1 request offers the tool catalogue. Its messages start with the system prompt and end with the user input. |
| ChatAssistant.OnlyPromptIsSystem | src/components/ChatAssistant.tsx:34-38 | In the round-1 messages, no message after the prompt is a system message. |
| ChatAssistant.SecondRequest | src/components/ChatAssistant.tsx:76-79 | Given one tool message answering each requested call, in call order, the round-2 request follows up round 1: the full transcript, then the tool messages, and no tools. |
| ChatAssistant.RunToolCall | src/components/ChatAssistant.tsx:49-66 | Unparsable arguments throw before anything changes, and so do `null` arguments to `delete_event`. A call that is not `create_event` or `delete_event` leaves the store unchanged. |
| ChatAssistant.Dispatch | src/components/ChatAssistant.tsx:48-74 | A loop that completes pushes exactly one tool message per call, in order, each carrying that call's id and name. Calls that touch no store leave the store unchanged. |
| ChatAssistant.DispatchSequential | src/components/ChatAssistant.tsx:48-74 | The calls run strictly in sequence: running `a + b` runs `a`, then `b` on the store `a` left, and the tool messages concatenate. An exception in `a` skips `b`. |
| ChatAssistant.CreateEventResult | src/components/ChatAssistant.tsx:52-58 | `create_event` has three outcomes. A throwing `addEvent` leaves the store as it was. A missing record gives the failure text. A created record gives "Created event: <title> at <formatted start>", or throws when the start cannot be formatted, after the store has changed. |
| ChatAssistant.CreateFailedAsksToSignIn | src/components/ChatAssistant.tsx:57 | The failure text mentions signing in and differs from every success text. |
| ChatAssistant.ListEventsResult | src/components/ChatAssistant.tsx:59-62 | `list_events` never changes the store. Signed in, it reports the count of the rendered events, as non-empty decimal digits without a leading zero, and their comma-joined titles. Otherwise it gives one fixed text, the same for every calendar. |
| ChatAssistant.ListSignInText | src/components/ChatAssistant.tsx:62 | The not-signed-in text asks the user to sign in. |
| ChatAssistant.ListingIsStale | src/components/ChatAssistant.tsx:48-61 | In a reply that creates an event and then lists, the listing describes the events from before the creation. |
| ChatAssistant.DeleteEventResult | src/components/ChatAssistant.tsx:63-66 | `delete_event` with `null` arguments throws with the store unchanged. Otherwise it confirms the id it was given, whether or not any event carried it, and the store becomes whatever the context's delete returned. |
| ChatAssistant.UnhandledNames | src/components/ChatAssistant.tsx:50-66 | Any other tool name yields the empty result and leaves the store unchanged. |
| ChatAssistant.TimezoneAdvertisedButUnhandled | src/components/ChatAssistant.tsx:52-66 | `set_timezone` appears in the catalogue, yet calling it yields the empty result and changes nothing. |
| ChatAssistant.ContextCreateNeverFails | src/components/ChatAssistant.tsx:53-58 | With the context's `addEvent`, which always returns the record, `create_event` appends exactly one new record and never gives the failure text. |
| ChatAssistant.ContextAdd | src/context/CalendarContext.tsx:36-44 | The context's `addEvent` as a tool sees it: `null` throws, and any other argument appends the new record and returns it. `NullArguments` and `ContextCreateNeverFails` state the tool-level consequences. |
| ChatAssistant.ContextDelete | src/context/CalendarContext.tsx:50-52 | The context's `deleteEvent` never throws. An `undefined` id matches no event, and a present id deletes as `CalendarStore.DeleteEvent`. |
| ChatAssistant.AsWrittenListNeverLists | src/components/ChatAssistant.tsx:60-62 | Wired to the context as written, `list_events` always answers with the sign-in text, whatever the calendar holds (see Findings). |
| ChatAssistant.NullArguments | src/components/ChatAssistant.tsx:49-66 | Arguments that parse to `null` make `create_event` (reading the colour of the input in the context's `addEvent`) and `delete_event` (reading `args.id`) throw with the store unchanged. Every other tool name completes. |
| ChatAssistant.MutationsSurviveFailure | src/components/ChatAssistant.tsx:48-88 | A created event survives a later call with unparsable arguments. The exchange answers with the apology after a single model call. |
| CalendarStore.NewEvent | src/context/CalendarContext.tsx:37-41 | The new record copies every input field, takes the fresh id over any input id, and keeps a truthy input colour, else `bg-blue-500`. Its colour is always truthy. |
| CalendarStore.AddEvent | src/context/CalendarContext.tsx:36-44 | The store grows by one. The earlier events are untouched and the returned record is the last one, carrying the fresh id. |
| CalendarStore.Merge | src/context/CalendarContext.tsx:47 | An empty patch leaves the event as it is. A patch carrying every field replaces the event by the patch. |
| CalendarStore.MergeIdempotent | src/context/CalendarContext.tsx:47 | Spreading the same patch twice equals spreading it once. |
| CalendarStore.MergeSequential | src/context/CalendarContext.tsx:47 | Spreading `p` and then `q` equals spreading the single patch `{ ...p, ...q }`. |
| CalendarStore.MergeFullPatch | src/context/CalendarContext.tsx:47 | A patch carrying every field gives the same record whatever event it is spread over. |
| CalendarStore.UpdateEvent | src/context/CalendarContext.tsx:46-48 | Same length. Events with another id are unchanged, and every event with the id becomes its merge with the patch. |
| CalendarStore.UpdateMissingId | src/context/CalendarContext.tsx:47 | Updating an id no event carries changes nothing. |
| CalendarStore.UpdateWithEmptyPatch | src/context/CalendarContext.tsx:47 | An empty patch changes nothing. |
| CalendarStore.UpdateIdempotent | src/context/CalendarContext.tsx:46-48 | Applying an update twice equals applying it once, even when the patch renames the events. |
| CalendarStore.UpdateSequential | src/context/CalendarContext.tsx:46-48 | Two updates of one id equal a single update with the combined patch, when the first keeps the id. |
| CalendarStore.DeleteEvent | src/context/CalendarContext.tsx:50-52 | Exactly the events with another id survive; none with the id remains. |
| CalendarStore.DeleteMissingId | src/context/CalendarContext.tsx:51 | Deleting an absent id changes nothing. |
| CalendarStore.DeletePresentId | src/context/CalendarContext.tsx:51 | Deleting a present id shrinks the store. |
| CalendarStore.DeleteIdempotent | src/context/CalendarContext.tsx:51 | Deleting twice equals deleting once. |
| CalendarStore.DeleteKeepsOrder | src/context/CalendarContext.tsx:51 | The survivors keep their order: deletion distributes over concatenation. |
| CalendarStore.DeleteUndoesAdd | src/context/CalendarContext.tsx:36-52 | Deleting the fresh id of a just-added event restores the previous store. |
| Seqs.Filter | src/context/CalendarContext.tsx:51 | `Array.filter`: the result holds only elements that pass and every passing element, and it is no longer than the input. |
| ToolRegistry.CalendarTools | src/lib/openai.ts:16-76 | Exactly the tools `create_event`, `list_events`, `delete_event` and `set_timezone`, in that order, with distinct names. Every required field is a declared property. |
| ToolRegistry.CatalogueSchemas | src/lib/openai.ts:16-76 | `create_event` requires title, start and end, and declares an optional description. `list_events` has no parameters. `delete_event` requires `id`. `set_timezone` requires `timezone`. |
| ToolRegistry.EnvironmentKey | src/lib/openai.ts:5-7 | The environment key when it is set and non-empty, otherwise the empty string. |
| ToolRegistry.ApiKey | src/lib/openai.ts:9-14 | A truthy passed key wins, otherwise the environment key. The key is empty exactly when neither is truthy. |
| Cookies.Split | src/lib/cookies.ts:12 | `split(';')` always yields at least one segment, and no segment contains `;`. |
| Cookies.JoinSplit | src/lib/cookies.ts:12 | Joining the segments with `;` gives back the cookie string. |
| Cookies.SplitJoin | src/lib/cookies.ts:12 | Splitting `;`-free pieces joined with `;` gives back the pieces. |
| Cookies.StripLeadingSpaces | src/lib/cookies.ts:15 | Removes exactly the leading spaces: the result is a suffix, what was removed is all spaces, and the result does not start with a space. |
| Cookies.Lookup | src/lib/cookies.ts:13-18 | Null exactly when no segment starts with the key once its leading spaces are stripped. Otherwise the text after the key in the first such segment. |
| Cookies.GetCookie | src/lib/cookies.ts:10-19 | Null exactly when no segment of the cookie string matches `name=`. Otherwise the rest of the first matching segment. |
| Cookies.GetCookieRoundTrip | src/lib/cookies.ts:10-19 | In a cookie string of distinct well-formed `name=value` pairs joined by `; `, each name reads back its own value. |
| Cookies.GetCookieEmpty | src/lib/cookies.ts:10-19 | An empty cookie string yields null for every name. |
| Cookies.OnlyLeadingSpacesStripped | src/lib/cookies.ts:15 | Any number of leading spaces before `name=value` is skipped and nothing more. |
| Cookies.SetCookieSegments | src/lib/cookies.ts:1-8 | The written string consists of the pair, then `expires=<UTC date>`, `path=/`, `Secure` and `SameSite=Strict`, in that order. |
| Cookies.SetCookie | src/lib/cookies.ts:1-8 | The assigned string starts with the `name=value` pair and ends with the path, `Secure` and `SameSite=Strict` attributes. `SetCookieSegments` states every piece. |
| Cookies.SetThenGet | src/lib/cookies.ts:1-19 | `getCookie` over the string `setCookie` assigns gives the value written, or empty for a null or empty value. |
| Cookies.EraseCookieSegments | src/lib/cookies.ts:21-23 | The erase string consists of the empty pair, `Path=/`, an expiry one second after the epoch, `Secure` and `SameSite=Strict`. |
| Cookies.EraseCookie | src/lib/cookies.ts:21-23 | The assigned string starts with `name=` and an empty value. `EraseCookieSegments` states every piece. |
| Cookies.EraseThenGet | src/lib/cookies.ts:10-23 | `getCookie` over the string `eraseCookie` assigns gives the empty value. |
| CalendarGrid.StartOfWeek | src/components/CalendarGrid.tsx:8 | A Sunday no later than the given day and less than a week before it. |
| CalendarGrid.WeekDays | src/components/CalendarGrid.tsx:8-12 | Seven consecutive days starting on a Sunday and containing the current day. |
| CalendarGrid.WeekDaysStable | src/components/CalendarGrid.tsx:8-12 | Moving the current date to any shown day shows the same week. |
| CalendarGrid.Hours | src/components/CalendarGrid.tsx:14 | The hours 0 to 23 in order. |
| CalendarGrid.GetEventsForDay | src/components/CalendarGrid.tsx:16-22 | Exactly the events whose start parses to an instant on the day and whose all-day flag (truthy or not) matches the selection. |
| CalendarGrid.DayPartition | src/components/CalendarGrid.tsx:16-22 | The all-day and the timed selections of a day split the events starting that day: together they hold each exactly once. |
| CalendarGrid.DayKeepsOrder | src/components/CalendarGrid.tsx:17 | Both selections keep the order of the event list. |
| CalendarGrid.HoursAndMinutes | src/components/CalendarGrid.tsx:94 | `getHours` and `getMinutes` decompose the whole minutes since midnight into an hour below 24 and a minute below 60. |
| CalendarGrid.Top | src/components/CalendarGrid.tsx:94 | The top offset is 0.8 px per whole minute since midnight and lies inside the 1152 px column. |
| CalendarGrid.TopIgnoresSeconds | src/components/CalendarGrid.tsx:94 | Seconds and milliseconds of the start do not move an event. |
| CalendarGrid.Height | src/components/CalendarGrid.tsx:95-96 | The height is non-negative exactly when the end is not before the start, and one hour is 48 px. |
| CalendarGrid.HeightAdditive | src/components/CalendarGrid.tsx:95-96 | Heights of consecutive intervals add up. |
| CalendarGrid.HeightOfMinutes | src/components/CalendarGrid.tsx:95-96 | A whole number of minutes is 0.8 px per minute high. |
| CalendarGrid.BoxEndsAtEndTime | src/components/CalendarGrid.tsx:94-96 | For a same-day event on whole minutes, top plus height equals the top offset of the end time. |
| Text.TrimEmptyIffBlank | src/components/ChatAssistant.tsx:93 | `input.trim()` is empty exactly when the input is all whitespace. |
| Text.NatToString | src/components/ChatAssistant.tsx:61 | The printed count is non-empty decimal digits without a leading zero, and it reads back as the number. |

## Left out

- The language model call is the parameter `Env.complete`. The model name, `tool_choice`, the client object and `response.choices[0]` are not modelled. A missing choice counts as a failed call.
- `JSON.parse` of tool arguments is the parameter `Env.parseArgs`. It yields a syntax error, `null`, or a value read through its event fields. Field values that are not strings are not modelled. Nor are the extra keys that spreading a parsed string or array adds to a new event: such a value counts as the fields it carries.
- Date formatting is the parameter `Env.formatStart` for `'PPp'` and `toUtc` for `toUTCString`. An invalid date makes it fail, which throws. The system prompt, including today's date and `JSON.stringify(events)`, is the parameter `Env.systemPrompt`.
- `Math.random().toString(36)` ids are the parameter `freshId`. Collisions are possible in the source, so `DeleteUndoesAdd` requires the id to be fresh.
- The initial welcome event, the `localStorage` persistence of events, `currentDate` and `view` in the context are left out: they are I/O and the clock.
- React state batching and concurrent submissions are not modelled. A submission runs to completion before the next one starts. `await` on the synchronous store functions has no effect and is not modelled.
- `CalendarStore.Merge` treats an absent patch field as "not in the patch". A JavaScript patch whose key is present with the value `undefined` would overwrite the field; that case is not modelled.
- `updateEvent` is destructured by the chat component but never called there, so only the context's function is modelled.
- `Cookies.EraseThenGet`: the empty value is what `getCookie` reads from the assigned string. A browser removes the expired entry instead, so a real read after `eraseCookie` gives `null` (src/lib/cookies.ts:18).
- `Cookies.SetThenGet`: reads the assigned string, not a jar. A browser's later read can differ in several ways:
  - With `seconds <= 0` the expiry is now or past, and the browser stores nothing.
  - A non-secure origin refuses the `Secure` cookie.
  - Leading and trailing spaces and tabs of the value are trimmed (section 5.2 of RFC 6265).
  - A cookie of the same name set for another path may be listed first.
- Cookies are modelled as the text of `document.cookie`. The browser's jar semantics are not modelled: assigning one cookie updates a single entry and expiry removes entries. Jars are written as `name=value` pairs joined by `; `.
- `ToolRegistry.CalendarTools`: the constant wrappers `type: 'function'` and `parameters.type: 'object'` are not represented.
- `CalendarGrid.Height`: floating-point rounding is not modelled; pixels are exact reals. An event whose end does not parse is not modelled: the height takes an instant.
- Time zones and daylight-saving shifts are left out. Instants are local wall-clock milliseconds, so every day is 24 hours long.
- `CalendarGrid.BoxEndsAtEndTime`: the `minHeight: '20px'` of the event box (src/components/CalendarGrid.tsx:102) is not modelled. An event shorter than 25 minutes is drawn past its end time, and the lemma speaks only of the computed top and height.
- `ChatAssistant.HandleSubmit`: the input box stays editable while an exchange runs (src/components/ChatAssistant.tsx:151, 157), but edits made meanwhile are not modelled. That is why `after.input` is empty.
- The `console.error` logging of a caught error (src/components/ChatAssistant.tsx:86) is output only and is not modelled.
- Rendering is not modelled. That covers the hour labels, the today highlight, the markdown display, its filter of system and empty messages, and scrolling.

## Findings

| source | as written | input that shows it | evidently intended | confidence | as-written member | corrected member |
|---|---|---|---|---|---|---|
| src/components/ChatAssistant.tsx:60-62 | `isAuthenticated` is read from the calendar context, whose value (src/context/CalendarContext.tsx:55-64) never provides it, so it is always undefined | a signed-in user with any events asks "what is on my calendar?" and the model calls `list_events` | list the count and titles of the events when signed in | high; not executed | ChatAssistant.AsWrittenListNeverLists | ChatAssistant.ListEventsResult |
