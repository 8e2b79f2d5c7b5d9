# Voice Agent Pro: booking engine and call session

This project models the logic behind the clinic receptionist simulator of Voice Agent Pro. A caller talks to an agent, either by typing (text mode, replies from a language model) or through a voice service (voice mode, streamed transcripts). The simulator watches the conversation. When a reply confirms a booking, it pulls three slots out of the conversation history and adds an appointment to the application store. The slots are the service, the customer's name and the appointment time.

The model has seven modules:

- `AppStore` (`app_store.dfy`): the `useStore` state as a class `Store`. Its fields are the call status, the live transcript and the appointment list; the unused `currentDate` is left out. Its methods are the five updaters. `UpdateById` is the `map` with the `{ ...appt, ...updates }` merge.
- `AgentLogic` (`agent_logic.dfy`):
  - `ProcessUserInput`, the keyword router that answers without a model;
  - `ExtractBookingData`, the simpler extractor (service plus the last three user turns);
  - `ClassifyReply` / `ProcessReply`, the classification of a model reply into an action and a next state, with the error fallback.
- `BookingExtraction` (`booking_extraction.dfy`): `extractBookingFromHistory`.
  - Each slot has a specification function: `NameOf`, `ServiceOf` and `TimeOf`, combined in `BookingOf`.
  - The loops of the source are methods proved equal to those functions: the name loop, the filler `forEach`, and the weekday loop.
- `Simulator` (`simulator.dfy`): the component's session state as a class `Session` over a `Store`.
  - The state is the mode, agent state, history, the processed-message fingerprints and the booked fingerprints.
  - The handlers are methods: start and end call, mode switch, the greeting effect, the speaking-state effect, the text handler and the voice transcript effect.
- `Text`, `Calendar` and `Wrappers`: strings as character sequences, the clock, and `Option`.

"Now" is a `Calendar.Clock`: a local day number since 1970-01-01 plus the milliseconds since local midnight. `getDay` is `(day + 4) % 7`. An appointment time is an `Instant` (day, hour, minute). `setHours` rolls an hour of 24 or more into the following days, as JavaScript does.

The text handler is split at its two `setTimeout`s:

1. `SendInput` records the input. It also returns the history the pending timer captured, which is the one before the input.
2. `DeliverReply` takes the reply.
3. `FinishReply` applies the next state.

The model keeps four behaviours of the code on purpose:

- The stop word "am" is matched as a substring of the raw turn, so "Sam", "James" or "Adam" is never taken as a name (`SamIsNeverAName`).
- The confirmation test also fires on "perfect" plus "appointment", which the reply classifier does not treat as a booking (`ConfirmationBeyondBookAction`).
- Text mode adds an appointment on every confirming reply with no duplicate check. Voice mode commits each booking fingerprint at most once per call (`CommitIsOncePerCall`, `Session.Valid`).
- A voice event that the service sends twice is appended to the message list twice, so the second copy carries the next count. It gets a new fingerprint and is recorded again in the transcript and the history. Only the booked-fingerprint check (`CommitIsOncePerCall`) keeps it from booking a second time.

## Model

| member | source | states |
|---|---|---|
| AppStore.Store.constructor | src/lib/store.ts:37-49 | the store starts idle, with an empty transcript and the two demonstration appointments |
| AppStore.Store.SetCallStatus | src/lib/store.ts:39 | only the call status changes, to the given one |
| AppStore.Store.AddTranscriptMessage | src/lib/store.ts:42 | the transcript grows by exactly the message, at the end; the other fields are unchanged |
| AppStore.Store.ClearTranscript | src/lib/store.ts:43 | the transcript becomes empty; nothing else changes |
| AppStore.Store.AddAppointment | src/lib/store.ts:49 | the appointment is appended with no id check; earlier entries and the other fields are unchanged |
| AppStore.Store.UpdateAppointment | src/lib/store.ts:50-54 | length and order are kept, entries with another id are unchanged, and the list is `UpdateById` of the old one |
| AppStore.UpdateById | src/lib/store.ts:51-53 | every entry with the id becomes the merge of it with the update; every other entry is kept; length is preserved |
| AppStore.UpdateAbsentId | src/lib/store.ts:50-54 | an update for an id no entry has leaves the list unchanged |
| AppStore.MergeNoChange | src/lib/store.ts:52 | an update with no fields leaves an appointment unchanged |
| AppStore.MergeIdempotent | src/lib/store.ts:52 | merging an update twice equals merging it once |
| AppStore.UpdateIdempotent | src/lib/store.ts:50-54 | applying the same update by id twice equals applying it once |
| AgentLogic.ClassifyService | src/lib/agent-logic.ts:87-93 | the service keyword test in priority order; its iff cases are stated by `ClassifyServicePriority` |
| AgentLogic.ProcessUserInput | src/lib/agent-logic.ts:111-159 | the keyword router; its branches are stated by `BookingRequestWins`, `ServiceBranchFollowsPriority`, `LongInputIsBookedAsName` and `IdleOnlyOnGoodbye` |
| AgentLogic.Contents | src/lib/agent-logic.ts:85 | the contents of the turns, one per turn, in order |
| AgentLogic.ClassifyServicePriority | src/lib/agent-logic.ts:87-93 | service priority, iff in each case: physio, else massage, else consultation, else none |
| AgentLogic.PhysiotherapyMentionsPhysio | src/lib/agent-logic.ts:87 | a text with "physiotherapy" contains "physio", so the first test reduces to "physio" |
| AgentLogic.BookingRequestWins | src/lib/agent-logic.ts:114-119 | input with book, appointment or schedule gets the service offer, whatever else it says |
| AgentLogic.ServiceBranchFollowsPriority | src/lib/agent-logic.ts:121-129 | the service branch returns the classifier's service in `data.service` and echoes it in the text, and keeps listening |
| AgentLogic.LongInputIsBookedAsName | src/lib/agent-logic.ts:139-146 | input of more than three characters without "thanks" that reaches this branch is booked with the raw input as the name |
| AgentLogic.IdleOnlyOnGoodbye | src/lib/agent-logic.ts:111-159 | every answer keeps listening except the goodbye one, which goes idle, and it does so only when the name branch did not apply |
| AgentLogic.UserTurns | src/lib/agent-logic.ts:96 | the filter is no longer than the history and keeps only user turns taken from it |
| AgentLogic.UserTurnsOfOne | src/lib/agent-logic.ts:96 | a single turn is kept iff it is a user turn |
| AgentLogic.UserTurnsAppend | src/lib/agent-logic.ts:96 | filtering distributes over concatenation; with `UserTurnsOfOne` every user turn is kept, in order, and nothing else |
| AgentLogic.LastN | src/lib/agent-logic.ts:96 | `slice(-n)` is the suffix of length n, or the whole sequence when it has at most n elements |
| AgentLogic.FirstCandidate | src/lib/agent-logic.ts:97-101 | `find`: none iff no message qualifies; otherwise the content of the first qualifying one |
| AgentLogic.RecentAreUserTurns | src/lib/agent-logic.ts:96 | the turns searched are the last three user turns of the history, all of them when fewer, in order |
| AgentLogic.ExtractBookingData | src/lib/agent-logic.ts:81-108 | the service name of the joined history and the first name-like recent user turn; stated by `ExtractedNameIsRecentUserTurn` and `ExtractionIgnoresInput` |
| AgentLogic.FirstCandidateIsUserTurn | src/lib/agent-logic.ts:95-105 | over any user turns of a history, the search finds nothing iff no turn is name-like, and otherwise the content of the first name-like turn, which is a user turn of that history |
| AgentLogic.ExtractedNameIsRecentUserTurn | src/lib/agent-logic.ts:95-105 | the name is verbatim the first recent user turn of at most three words, over two characters and without "book"; every earlier recent turn fails the test; it is absent iff no recent turn qualifies |
| AgentLogic.ExtractionIgnoresInput | src/lib/agent-logic.ts:81-108 | the `input` argument never changes what is extracted |
| AgentLogic.ClassifyReply | src/lib/agent-logic.ts:47-69 | the classification of a model reply; its action and next state are stated by `ReplyAction` and `ReplyEndsOnBye` |
| AgentLogic.ProcessReply | src/lib/agent-logic.ts:47-77 | a reply is classified, a failed request takes the fallback; stated by `FailedReplyFallsBack` |
| AgentLogic.ReplyAction | src/lib/agent-logic.ts:47-57 | the action is book iff booked/confirmed occurs, else check_availability iff check and availability occur, else none; only a booking carries extracted data |
| AgentLogic.ReplyEndsOnBye | src/lib/agent-logic.ts:59-66 | the next state is idle iff the reply says "bye" or "have a great day"; otherwise it is listening |
| AgentLogic.FailedReplyFallsBack | src/lib/agent-logic.ts:70-77 | a failed request gives the fixed apology, keeps listening and carries no action |
| Text.LowerChar | src/components/simulator/Simulator.tsx:39 | a capital letter maps to its small letter, 32 code points above it; every other character is kept |
| Text.Lower | src/components/simulator/Simulator.tsx:39 | `toLowerCase`: same length, each character lower-cased by `LowerChar` |
| Text.Contains | src/components/simulator/Simulator.tsx:59-70 | `includes`: the pattern occurs at some index, so the empty pattern is always found and a pattern longer than the text never is; occurrence survives concatenation (`ContainsInConcat`) and is transitive (`ContainsTrans`) |
| Text.Trim | src/components/simulator/Simulator.tsx:38 | `trim` is no longer than the text and neither starts nor ends with white space; `TrimOccurs` places it in the text |
| Text.TrimOccurs | src/components/simulator/Simulator.tsx:38 | the trimmed text occurs in the text right after the leading white space, and only white space comes before and after it; with `Trim`'s contract this fixes the trimmed text |
| Text.TrimIsEmptyIffBlank | src/components/simulator/Simulator.tsx:252 | a text trims to nothing iff it is all white space |
| Text.Words | src/components/simulator/Simulator.tsx:54 | the maximal runs without white space, each a non-empty word |
| Text.WordsOfTrimStart | src/components/simulator/Simulator.tsx:54 | leading white space separates no words |
| Text.Split | src/components/simulator/Simulator.tsx:56 | `split(' ')` yields at least one piece, no piece holds a space, and joining the pieces with spaces gives back the text |
| Text.SkipSpaces | src/components/simulator/Simulator.tsx:92 | `\s*` from an index ends exactly where the white space ends |
| Text.MentionsAnyIff | src/components/simulator/Simulator.tsx:59-70 | the chain of `!includes` tests fails iff some stop word occurs |
| BookingExtraction.NextMatch | src/components/simulator/Simulator.tsx:49-50 | the search for the next match finds a whole-word match, or reaches the end |
| BookingExtraction.NextMatchIsFirst | src/components/simulator/Simulator.tsx:49-50 | no whole-word match starts before the one found |
| BookingExtraction.NextMatchIsThatMatch | src/components/simulator/Simulator.tsx:49-50 | a whole-word match with none before it is the one found |
| BookingExtraction.RemoveWordFrom | src/components/simulator/Simulator.tsx:49-50 | the whole-word replacement never lengthens the text and leaves it unchanged when nothing matches |
| BookingExtraction.RemoveWordUpToNext | src/components/simulator/Simulator.tsx:49-50 | every character before the next whole-word match is kept, in order and case, the match is deleted and the replacement resumes after it |
| BookingExtraction.CollapseSpaces | src/components/simulator/Simulator.tsx:54 | `replace(/\s+/g, ' ')`; stated by `CollapseThenTrimJoinsWords`, `CollapseFromWord`, `CollapseFromSpace`, `CollapseSpacesIsSingleSpaced` and `CollapseKeepsSingleSpaced` |
| BookingExtraction.CollapseKeepsWord | src/components/simulator/Simulator.tsx:54 | a run without white space passes through the collapse verbatim |
| BookingExtraction.CollapseFromWord | src/components/simulator/Simulator.tsx:54 | a text that starts with a word collapses to its words joined by single spaces, plus one space if it ended in white space |
| BookingExtraction.CollapseFromSpace | src/components/simulator/Simulator.tsx:54 | a text that starts with white space collapses to one space, its words joined by single spaces and one space if it ended in white space; a blank text collapses to one space |
| BookingExtraction.JoinedWordsAreTrimmed | src/components/simulator/Simulator.tsx:54 | words joined by spaces neither start nor end with white space and are empty iff there are no words |
| BookingExtraction.TrimPadded | src/components/simulator/Simulator.tsx:54 | white space around a text without white space at its ends is exactly what `trim` removes |
| BookingExtraction.CollapseThenTrimJoinsWords | src/components/simulator/Simulator.tsx:54 | collapse then trim gives exactly the words of the text, verbatim and in order, joined by single spaces |
| BookingExtraction.CollapseKeepsSingleSpaced | src/components/simulator/Simulator.tsx:54 | single-spaced text is left unchanged |
| BookingExtraction.TidyIsTrimmed | src/components/simulator/Simulator.tsx:50-54 | tidy text is its own trim |
| BookingExtraction.CollapseSpacesIsSingleSpaced | src/components/simulator/Simulator.tsx:54 | after `replace(/\s+/g, ' ')` only single spaces remain, and a leading non-space character is kept |
| BookingExtraction.CollapsedTrimmedIsTidy | src/components/simulator/Simulator.tsx:54 | collapsing then trimming gives single-spaced text without leading or trailing spaces |
| BookingExtraction.CleanFrom | src/components/simulator/Simulator.tsx:47-54 | the filler removal and clean-up; stated by `CleanFromIsTidy`, `CleanFromUnmatched` and `StripFillers` |
| BookingExtraction.Clean | src/components/simulator/Simulator.tsx:38-54 | the cleaned turn; stated by `CleanKeepsTidyTurn` and `CandidateIsWellFormed` |
| BookingExtraction.CleanFromUnmatched | src/components/simulator/Simulator.tsx:47-54 | fillers that never match as whole words leave a trimmed text to the final collapse and trim |
| BookingExtraction.CleanKeepsTidyTurn | src/components/simulator/Simulator.tsx:38-54 | a turn that is tidy after trimming and holds no filler as a whole word is kept exactly, casing included |
| BookingExtraction.SecondCharRulesOutMatch | src/components/simulator/Simulator.tsx:49-50 | a word whose first two letters never stand side by side in the text, in any case, has no whole-word match there |
| BookingExtraction.RemoveOnlyMatch | src/components/simulator/Simulator.tsx:49-50 | with one whole-word match, the replacement cuts out exactly that match and keeps both sides |
| BookingExtraction.UmIsRemoved | src/components/simulator/Simulator.tsx:48-50 | "um" is cut out of "John um Smith", leaving "John  Smith" |
| BookingExtraction.JohnSmithHasNoOtherFiller | src/components/simulator/Simulator.tsx:48-50 | none of the later fillers matches "John  Smith" as a whole word |
| BookingExtraction.TrimStartSkips | src/components/simulator/Simulator.tsx:54 | leading white space is dropped up to the first other character |
| BookingExtraction.CollapseTwoWords | src/components/simulator/Simulator.tsx:54 | two words with white space between them collapse and trim to the words and one space |
| BookingExtraction.JohnSmithCollapses | src/components/simulator/Simulator.tsx:54 | "John  Smith" collapses to "John Smith" |
| BookingExtraction.JohnUmSmithIsCleaned | src/components/simulator/Simulator.tsx:38-54 | the turn "John um Smith" cleans to "John Smith": the filler is removed, the double space collapsed and the casing kept |
| BookingExtraction.CleanFromIsTidy | src/components/simulator/Simulator.tsx:46-54 | whatever the fillers, the cleaned turn is tidy |
| BookingExtraction.CleanFromStep | src/components/simulator/Simulator.tsx:49-51 | one step of the filler `forEach`: filler `k` is removed and the text trimmed before the later fillers |
| BookingExtraction.StripFillers | src/components/simulator/Simulator.tsx:47-51 | the `forEach` removes and trims the fillers in order, leaving only the final collapse and trim |
| BookingExtraction.Accepts | src/components/simulator/Simulator.tsx:41-71 | the filler-only test, the one-to-three-word test, the stop words and the length test; stated by `CandidateIsWellFormed`, `StopWordRulesOut` and `SamIsNeverAName` |
| BookingExtraction.Candidate | src/components/simulator/Simulator.tsx:38-74 | one pass of the name loop as a value: a turn yields a candidate iff it is accepted, and the candidate is the cleaned turn, over two characters; what cleaning keeps is stated by `CleanKeepsTidyTurn` and `RemoveWordUpToNext` |
| BookingExtraction.CandidateIsWellFormed | src/components/simulator/Simulator.tsx:53-71 | a candidate has one to three words, more than two characters and tidy spacing |
| BookingExtraction.FirstFoundIsFirst | src/components/simulator/Simulator.tsx:37-75 | the scan with `break` returns the first candidate, or empty iff there is none |
| BookingExtraction.NameOf | src/components/simulator/Simulator.tsx:35-75 | the name slot; stated by `NameIsFirstAcceptedUserTurn` and the lemmas after it |
| BookingExtraction.NameOfCons | src/components/simulator/Simulator.tsx:37-75 | a history headed by an accepted user turn is named by that turn, cleaned; otherwise the rest names it |
| BookingExtraction.NameIsEmptyIffNoneAccepted | src/components/simulator/Simulator.tsx:35-75 | the name is empty iff no user turn of the history is accepted, in both directions |
| BookingExtraction.FirstAcceptedShifts | src/components/simulator/Simulator.tsx:35-37 | a turn that is not an accepted user turn, put in front, moves the first accepted turn one place on |
| BookingExtraction.NameIsFirstAcceptedUserTurn | src/components/simulator/Simulator.tsx:35-75 | over the indices of the history: a non-empty name is the cleaned text of an accepted user turn with every earlier user turn rejected |
| BookingExtraction.NameIsWellFormed | src/components/simulator/Simulator.tsx:53-73 | a non-empty name has one to three words, more than two characters and tidy spacing |
| BookingExtraction.StopWordRulesOut | src/components/simulator/Simulator.tsx:58-70 | a turn whose trimmed lower-case text contains any stop word is never the name |
| BookingExtraction.SamIsNeverAName | src/components/simulator/Simulator.tsx:69 | a turn reading "Sam" is rejected, because "am" occurs in it |
| BookingExtraction.AssistantTurnsDoNotChangeName | src/components/simulator/Simulator.tsx:35 | appending an assistant turn never changes the name |
| BookingExtraction.NameIsStable | src/components/simulator/Simulator.tsx:72-73 | first match wins: once a name is found, later turns never change it |
| BookingExtraction.ScanTurn | src/components/simulator/Simulator.tsx:38-74 | one pass of the name loop computes the turn's candidate |
| BookingExtraction.ExtractName | src/components/simulator/Simulator.tsx:35-75 | the name loop computes `NameOf` of the history |
| BookingExtraction.ServiceOf | src/components/simulator/Simulator.tsx:21-30 | the service slot; stated by `ServiceFollowsPriority` |
| BookingExtraction.KeywordInAnyTurnIsSeen | src/components/simulator/Simulator.tsx:21 | a keyword in any turn, assistant turns included, occurs in the joined lower-case text |
| BookingExtraction.ServiceFollowsPriority | src/components/simulator/Simulator.tsx:21-30 | service priority over the joined history, iff in each case; "physio" in any turn gives physiotherapy |
| BookingExtraction.DayFrom | src/components/simulator/Simulator.tsx:83-89 | the first weekday name of the list the text contains, or -1 iff it contains none |
| BookingExtraction.DayIndexOf | src/components/simulator/Simulator.tsx:78-89 | the weekday slot, `DayFrom` from the first name |
| BookingExtraction.FindDay | src/components/simulator/Simulator.tsx:78-89 | the loop with `break` computes the index of the first weekday named |
| BookingExtraction.DaysUntil | src/components/simulator/Simulator.tsx:112-118 | the offset is one to seven days and lands on the target weekday |
| BookingExtraction.FirstDigit | src/components/simulator/Simulator.tsx:92 | the first digit at or after a position, or none iff there is none |
| BookingExtraction.ModifierAtReads | src/components/simulator/Simulator.tsx:92-95 | the modifier is am, pm or minutes exactly when "am" or "pm" in any case, or a colon and two digits, starts there |
| BookingExtraction.MatchAt | src/components/simulator/Simulator.tsx:92 | a one- or two-digit match gives an hour below 100; the hour's value and the modifier are stated by `MatchAtReadsPattern` and `ModifierAtReads` |
| BookingExtraction.MatchAtReadsPattern | src/components/simulator/Simulator.tsx:92-95 | the hour is the decimal value of the greedy run of one or two digits, and the modifier is read where the white space after it ends |
| BookingExtraction.FirstHour | src/components/simulator/Simulator.tsx:92 | the first match of the time pattern; stated by `HourFromFirstDigit` |
| BookingExtraction.ConvertHour | src/components/simulator/Simulator.tsx:94-102 | the 24-hour conversion; `TwelveHourConversion` (hours 0 to 12 with am or pm) and `LiteralHours` (every other hour and modifier) together fix its value on every input |
| BookingExtraction.HourOf | src/components/simulator/Simulator.tsx:92-105 | the hour slot; stated by `HourFromFirstDigit` and `MatchAtReadsPattern` |
| BookingExtraction.HourFromFirstDigit | src/components/simulator/Simulator.tsx:92-105 | an hour is found iff the text has a digit, and the match starts at the first one |
| BookingExtraction.TwelveHourConversion | src/components/simulator/Simulator.tsx:98-102 | for hours 0 to 12, am gives h mod 12 and pm gives h mod 12 + 12, so "0 pm" is 12 |
| BookingExtraction.LiteralHours | src/components/simulator/Simulator.tsx:97-104 | without am/pm, with :MM, pm from 12 on and am other than 12, the digits are the hour |
| BookingExtraction.TimeOf | src/components/simulator/Simulator.tsx:107-151 | the time slot relative to now; stated by the next five lemmas |
| BookingExtraction.WeekdayRule | src/components/simulator/Simulator.tsx:110-131 | a named weekday gives the next strictly later occurrence at the found hour or 14:00; only an hour past 23 pushes the day further |
| BookingExtraction.TodayOrTomorrowRule | src/components/simulator/Simulator.tsx:132-151 | no weekday: tomorrow at 14:00 without an hour; otherwise today at that hour, or tomorrow when it has passed |
| BookingExtraction.TimeIsNeverPast | src/components/simulator/Simulator.tsx:110-151 | the time slot is never earlier than now, and a named weekday is a later day |
| BookingExtraction.MinutesAreDropped | src/components/simulator/Simulator.tsx:104 | the minute of the slot is always 0 |
| BookingExtraction.MondayAtTwoPmDay | src/components/simulator/Simulator.tsx:78-89 | "monday at 2 pm" names Monday |
| BookingExtraction.MondayAtTwoPmHour | src/components/simulator/Simulator.tsx:92-102 | "monday at 2 pm" reads as 14:00 |
| BookingExtraction.MondayAtTwoPm | src/components/simulator/Simulator.tsx:92-131 | said on a Wednesday, "monday at 2 pm" books the coming Monday, five days on, at 14:00 |
| BookingExtraction.BookingOf | src/components/simulator/Simulator.tsx:15-154 | the three slots of the history; each is stated by the lemmas above |
| BookingExtraction.ExtractBookingFromHistory | src/components/simulator/Simulator.tsx:15-154 | the method computes the three slots of `BookingOf` |
| Calendar.Weekday | src/components/simulator/Simulator.tsx:112 | `getDay` is in 0..6 |
| Calendar.AtHour | src/components/simulator/Simulator.tsx:126 | `setHours` keeps the moment and normalises the hour below 24, and is the given day and hour when the hour is below 24 |
| Simulator.IsConfirmation | src/components/simulator/Simulator.tsx:197-199 | the confirmation test on a reply; stated by `BookActionIsConfirmation` and `ConfirmationBeyondBookAction` |
| Simulator.BookActionIsConfirmation | src/components/simulator/Simulator.tsx:284-286 | every reply the classifier marks as a booking also passes the simulator's confirmation test |
| Simulator.ConfirmationBeyondBookAction | src/components/simulator/Simulator.tsx:285-286 | "perfect" plus "appointment" with no b or d passes the test although the classifier sees no booking |
| Simulator.AppointmentOf | src/components/simulator/Simulator.tsx:291-297 | the appointment carries the booking's name, service name, time, the new id and status confirmed |
| Simulator.Added | src/components/simulator/Simulator.tsx:290-299 | a complete booking adds its one appointment; no booking adds none |
| Simulator.VoiceCommit | src/components/simulator/Simulator.tsx:207-217 | a booking is committed iff the history's booking is complete and its fingerprint is not yet booked, and the commit is that booking |
| Simulator.VoiceOutcome | src/components/simulator/Simulator.tsx:170-226 | skipped iff no role, no transcript or a seen fingerprint; a commit only for an assistant confirmation with a complete, unbooked booking, and a new assistant confirmation with such a booking always commits it |
| Simulator.RedeliveryIsSkipped | src/components/simulator/Simulator.tsx:176-180 | a message whose fingerprint was recorded is skipped |
| Simulator.CommitIsOncePerCall | src/components/simulator/Simulator.tsx:207-217 | a booking whose fingerprint is booked is never committed again |
| Simulator.TextBooking | src/components/simulator/Simulator.tsx:283-300 | text mode books iff the reply confirms and the history's booking is complete, and then books exactly that booking |
| Simulator.Session.constructor | src/components/simulator/Simulator.tsx:158-164 | a session starts in text mode, idle, with empty history and empty trackers |
| Simulator.Session.StartCall | src/components/simulator/Simulator.tsx:313-322 | the call is connected and both trackers are cleared; history, transcript and appointments are kept |
| Simulator.Session.EndCall | src/components/simulator/Simulator.tsx:324-334 | the call ends, the agent goes idle, and history and both trackers are cleared |
| Simulator.Session.SwitchMode | src/components/simulator/Simulator.tsx:344-350 | the mode changes; a connected call is ended first, otherwise nothing else changes |
| Simulator.Session.Greet | src/components/simulator/Simulator.tsx:236-243 | a connected idle text call gets the greeting in the transcript, and the history becomes the greeting alone; otherwise nothing changes |
| Simulator.Session.GreetingDelivered | src/components/simulator/Simulator.tsx:244-246 | after the speaking delay the agent listens |
| Simulator.Session.SyncVoiceState | src/components/simulator/Simulator.tsx:229-233 | in an active voice session the agent state mirrors whether the service speaks; otherwise it is unchanged |
| Simulator.Session.SendInput | src/components/simulator/Simulator.tsx:251-265 | blank input changes nothing (by `TrimIsEmptyIffBlank`, exactly the input that is all white space); otherwise the input is added to transcript and history and the agent is processing |
| Simulator.Session.DeliverReply | src/components/simulator/Simulator.tsx:268-300 | the response is the classified reply; the history is the captured one plus this exchange; a confirming reply adds `TextBooking`'s appointment |
| Simulator.Session.BookIfConfirmed | src/components/simulator/Simulator.tsx:283-300 | the confirmation check adds exactly the appointment `TextBooking` gives, or none |
| Simulator.Session.FinishReply | src/components/simulator/Simulator.tsx:303-308 | the agent takes the reply's next state or listens; the call ends iff the reply says "goodbye" |
| Simulator.Session.OnVoiceMessage | src/components/simulator/Simulator.tsx:170-226 | the effect follows `VoiceOutcome`: a new message is recorded once; a commit adds one appointment and its fingerprint, and the booked set stays duplicate-free |
| Simulator.Session.CommitVoiceBooking | src/components/simulator/Simulator.tsx:201-219 | the voice commit adds the appointment and fingerprint of `VoiceCommit`, or nothing |
| Simulator.Session.RecordBooked | src/components/simulator/Simulator.tsx:217 | a new fingerprint joins the booked set, which stays duplicate-free |
| Simulator.DeliverTwice | src/components/simulator/Simulator.tsx:170-226 | the transcript effect run twice on the same message list (same count) follows `VoiceOutcome` the first time and skips the second; the appointments grow by the first run's commit only, by exactly one when it commits |

## Left out

- Only the ASCII letters have a case, and only ASCII white space is trimmed or collapsed. JavaScript's Unicode `toLowerCase`, `trim` and `\s` are wider.
- The store's fourth field, `currentDate` (src/lib/store.ts:34 and 56), is set to the creation time and never read or updated by the core, so `AppStore.Store` leaves it out.
- `Date` is a local day number plus milliseconds. Time zones, daylight saving, `toISOString` and the ISO string format of `time` are not modelled; a slot is a day, hour and minute.
- The fingerprints `role-transcript-count` and `name-service-time` are datatypes. The joined strings could in principle collide when a part holds a "-"; the datatypes cannot.
- `Math.random()` ids and `Date.now()` stamps are parameters. `console.log` output is dropped.
- The network: the `fetch` to the chat route and the language model behind it. The reply is an `Option<string>`, where `None` stands for the failure path. The `context` argument is not modelled.
- React scheduling. Updates are applied in order, without batching or re-rendering. The voice effect sees the current history and fingerprint sets. It handles only the newest voice message. An empty transcript stands for an absent one.
- The `setTimeout` delays. Each timer callback is a method of its own, and the stale closure of the text handler is the `captured` parameter.
- The voice service calls `startVapi`, `stopVapi` and `setMuted`, `toggleMute`, the user-input field and all rendering. They only forward to the voice service or draw the UI.
- `split(' ').length >= 1` always holds in JavaScript. `Split` states this, and the name test still carries the condition.
- `AppointmentUpdate` lets only `notes` be set explicitly to undefined. A TypeScript `Partial<Appointment>` also allows an explicit `undefined` for the other fields, and the spread at src/lib/store.ts:52 would then overwrite them with `undefined`.
- JavaScript's `.length` counts UTF-16 code units (src/lib/agent-logic.ts:99 and 139, src/components/simulator/Simulator.tsx:71). The model counts characters, which is the same thing for the ASCII text it handles.
