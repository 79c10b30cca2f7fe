# Meeting-app decision logic in Dafny

A model of the pure decision logic inside the video-meeting app's hooks and components:

- **the call classifier** of the `useGetCalls` hook. From the queried calls and the instant `now` it
  computes the ended list, the upcoming list and the recordings-eligible list;
- **`createMeeting`** of the meeting-type list. Given the form values it either rejects with a toast,
  or builds the get-or-create payload and then opens the instant meeting or confirms the scheduled one;
- **`joinMeeting`**, which turns a pasted link or id into a `/meeting/...` route, or rejects it;
- **the call list**: the bucket a tab shows, its empty-state message, the flattened recordings, and
  the key, title, date, link and button of each card.

Instants are integer milliseconds. An ISO string field, as the components see it after
`new Date(...)`, is a `Stamp`: absent (or empty), unparseable, or an instant. The unparseable case
matters because every comparison with an invalid date is false. The JavaScript string built-ins the
code relies on are modelled in `Text` (on characters rather than UTF-16 code units; see
"## Left out"):

- `trim` and the regular-expression class `\s`, which share the ECMAScript WhiteSpace and
  LineTerminator set;
- `split` on one character, `join`, `includes`, `startsWith` and `substring(0, n)`;
- the decimal text of a count.

The address regular expression `^[^\s@]+@[^\s@]+\.[^\s@]+$` is written twice: once literally as a
split into three plain runs, and once as the string predicate `IsEmail`. The two are proved to agree.

Files and modules:

- `wrappers.dfy` (`Wrappers`): `Option`.
- `seqs.dfy` (`Seqs`): filter, map, flatten, and the subsequence relation.
- `text.dfy` (`Text`): the string built-ins.
- `calls.dfy` (`Calls`): the call and recording records.
- `use_get_calls.dfy` (`UseGetCalls`): the call classifier.
- `email.dfy` (`Email`): the address check.
- `meeting_type_list.dfy` (`MeetingTypeList`): `createMeeting` and `joinMeeting`.
- `call_list.dfy` (`CallList`): the list presentation.

## Model

| member | source | states |
|---|---|---|
| UseGetCalls.EndedCalls | zoom/hooks/useGetCalls.ts:50-58 | a call is in the ended list iff it is in the input and explicitly ended or its parsed `ends_at` is strictly before `now`; the list keeps input order (a subsequence) and has one entry per such call |
| UseGetCalls.UpcomingCalls | zoom/hooks/useGetCalls.ts:61-94 | a call is in the upcoming list iff it is in the input, not explicitly ended, has a real description, and has a future `ends_at` (or, with no `ends_at`, a future start); order is kept |
| UseGetCalls.CallRecordings | zoom/hooks/useGetCalls.ts:101 | the recordings-eligible calls are exactly the ended list |
| UseGetCalls.ExplicitEndDecides | zoom/hooks/useGetCalls.ts:50-51 | a call with `endedAt` set is ended and never upcoming |
| UseGetCalls.EndedByScheduleOnly | zoom/hooks/useGetCalls.ts:53-57 | without `endedAt`, ended iff `ends_at` parses to an instant strictly before `now`; `ends_at == now`, unparseable or absent is not ended |
| UseGetCalls.PlaceholderNeverUpcoming | zoom/hooks/useGetCalls.ts:69-76 | a missing, blank-after-trim or "Instant Meeting" description is never upcoming |
| UseGetCalls.EndsAtOverridesStart | zoom/hooks/useGetCalls.ts:79-84 | with `ends_at` present, upcoming iff not ended explicitly, a real description and `ends_at > now`; changing `startsAt` changes nothing |
| UseGetCalls.StartDecidesWithoutEndsAt | zoom/hooks/useGetCalls.ts:87-93 | with no `ends_at`, upcoming iff not ended explicitly, a real description and a start after `now`; no start means excluded |
| UseGetCalls.EndedAndUpcomingDisjoint | zoom/hooks/useGetCalls.ts:50-94 | no call is in both the ended and the upcoming list |
| UseGetCalls.EndedIsPermanent | zoom/hooks/useGetCalls.ts:50-58 | a call ended at `now` is ended at every later instant |
| UseGetCalls.UpcomingOnlyShrinks | zoom/hooks/useGetCalls.ts:61-94 | a call upcoming at `now` was upcoming at every earlier instant |
| UseGetCalls.ScheduledMeetingLifecycle | zoom/hooks/useGetCalls.ts:50-94 | a half-hour "Team Sync" meeting is upcoming and not ended ten minutes in, and ended and not upcoming a minute after its end |
| UseGetCalls.InstantMeetingNeverUpcoming | zoom/hooks/useGetCalls.ts:69-71 | a call created with an empty description or the instant-meeting placeholder never shows as upcoming |
| Email.EmailMatchesRegex | zoom/components/MeetingTypeList.tsx:52 | the regular expression matches exactly the strings with no whitespace, exactly one `@` with a non-empty part before it, and a domain with a `.` that is neither its first nor its last character |
| Email.RegexImpliesEmail | zoom/components/MeetingTypeList.tsx:52 | every string the regular expression matches passes the string predicate |
| Email.EmailImpliesRegex | zoom/components/MeetingTypeList.tsx:52 | every string passing the string predicate is matched by the regular expression |
| Email.EmailFromParts | zoom/components/MeetingTypeList.tsx:52 | three plain runs joined by `@` and `.` form an address |
| MeetingTypeList.ParseMembers | zoom/components/MeetingTypeList.tsx:53 | an entry is kept iff it is a non-empty trimmed comma-separated piece; order is kept and there is one entry per non-empty piece, repeats included; every kept entry is non-empty, trimmed and comma-free |
| MeetingTypeList.ParseJoinRoundTrip | zoom/components/MeetingTypeList.tsx:53 | parsing clean entries joined by `", "` gives back exactly those entries |
| MeetingTypeList.Invitees | zoom/components/MeetingTypeList.tsx:50-53 | members are parsed only when both the description and the member field are non-empty, otherwise none |
| MeetingTypeList.InvalidEmails | zoom/components/MeetingTypeList.tsx:54 | the failing entries are exactly the entries that are not addresses, in input order, one per failing entry (repeats included) |
| MeetingTypeList.RoundedMinutes | zoom/components/MeetingTypeList.tsx:73 | the duration is the whole number of minutes within half a minute of the difference, halves rounding up |
| MeetingTypeList.RoundedMinutesUnique | zoom/components/MeetingTypeList.tsx:73 | any integer within that half-open window is the rounded value: the rounding is determined |
| MeetingTypeList.EndAsNumber | zoom/components/MeetingTypeList.tsx:42 | the end as the `<=` comparison sees it: its instant, or 0 when the picker was cleared |
| MeetingTypeList.Payload | zoom/components/MeetingTypeList.tsx:70-90 | start and end are stored as given; the description, or "Instant Meeting" when empty; the rounded duration; one `call_member` entry per email in order, omitted when there are none |
| MeetingTypeList.Validate | zoom/components/MeetingTypeList.tsx:37-64 | the checks in order: no date, then an end not after the start (scheduled only; a cleared end compares as 0), then malformed invitations; all pass iff there is a date, a valid range when scheduled, and every invitee is an address; the invalid-address toast lists the failing entries joined by `", "` |
| MeetingTypeList.ScheduledNotice | zoom/components/MeetingTypeList.tsx:101-104 | the confirmation names the invitation count when there is one, otherwise reports success |
| MeetingTypeList.CreateMeeting | zoom/components/MeetingTypeList.tsx:34-113 | nothing happens without a client and a user; a failed check rejects without sending; a cleared end that passes the checks throws before sending and shows the failure toast with the engine's message; otherwise the payload is sent, a throw shows "Failed to create Meeting" with the error's message or "Please try again", an empty description opens `/meeting/<id>`, and a description confirms with the number of members the payload invites |
| MeetingTypeList.ClearedEndSendsNothing | zoom/components/MeetingTypeList.tsx:42-73 | with the end picker cleared no call is ever sent: a scheduled meeting starting at or after the epoch is refused as an invalid range, an instant meeting fails at the duration |
| MeetingTypeList.InvalidInvitesAreNamed | zoom/components/MeetingTypeList.tsx:54-62 | a scheduled meeting with a malformed invitation is rejected, and the text after "Please check: " parses back to exactly the failing entries, in order |
| MeetingTypeList.InvalidInviteRejected | zoom/components/MeetingTypeList.tsx:54-62 | with a date, a valid range and a malformed invitee, the check rejects with the invalid-address toast |
| MeetingTypeList.InstantMeetingSkipsChecks | zoom/components/MeetingTypeList.tsx:42-48 | an instant meeting with an end set skips the time-range and invitation checks: any end time goes through and the call opens at once |
| MeetingTypeList.JoinMeeting | zoom/components/MeetingTypeList.tsx:115-143 | an empty link is rejected; a trimmed link with no `http` and no `/` becomes `/meeting/<trimmed>`; one with a `/` is accepted iff it starts with `/meeting/`, else "Invalid meeting link format"; a link with `http` is rejected when the URL does not parse, and otherwise its path goes through the same normalisation; every accepted path starts with `/meeting/` |
| MeetingTypeList.BlankLinkOpensBareRoute | zoom/components/MeetingTypeList.tsx:116-131 | a link of blanks passes the emptiness test and opens the bare `/meeting/` route |
| MeetingTypeList.SharedLinkJoins | zoom/components/MeetingTypeList.tsx:121-138 | the link the app hands out, whose URL path is `/meeting/<id>`, joins that meeting |
| CallList.Bucket | zoom/components/CallList.tsx:17-28 | the ended tab shows the ended calls, the upcoming tab the upcoming calls, the recordings tab the fetched recordings, in order |
| CallList.NoCallsMessage | zoom/components/CallList.tsx:30-41 | the empty-state message of each tab: "No Previous Calls", "No Upcoming Calls", "No Recordings" |
| CallList.NoCallsMessagesDistinct | zoom/components/CallList.tsx:30-41 | each tab's empty-state message is non-empty and differs from the other tabs' |
| CallList.FetchRecordings | zoom/components/CallList.tsx:76-78 | dropping the calls with no recordings and flattening gives the in-order concatenation of all per-call lists, of length the sum of their lengths |
| CallList.RecordingsOf | zoom/components/CallList.tsx:72-78 | the recordings of the recordings-eligible calls, call by call in list order with repeats kept; a recording is listed iff it belongs to one of those calls |
| CallList.FormatMeetingTime | zoom/components/CallList.tsx:43-66 | "No date set" without a start; otherwise the start text, followed by " - " and the end time when `ends_at` is present ("Invalid Date" when it does not parse) |
| CallList.RecordingDate | zoom/components/CallList.tsx:110-118 | a recording's date is "Not Available" without a start time, otherwise its formatted start |
| CallList.ItemKey | zoom/components/CallList.tsx:98-101 | the key is the call id, else the recording filename, else the index |
| CallList.CallCardKeysDistinct | zoom/components/CallList.tsx:96-101 | on a call tab, calls with distinct ids give cards with distinct keys |
| CallList.Title | zoom/components/CallList.tsx:104-107 | the description when truthy, else a truthy filename cut to its first 20 characters (exactly 20 when longer, the whole name otherwise), else "No Description"; never empty |
| CallList.Icon | zoom/components/CallList.tsx:129-135 | the card icon of each tab is an SVG asset under `/icons/`: previous, upcoming or recordings |
| CallList.IconsDistinct | zoom/components/CallList.tsx:129-135 | two tabs show the same card icon exactly when they are the same tab |
| CallList.CardFor | zoom/components/CallList.tsx:121-146 | the card carries the entry's key, title and tab icon; recordings link to and play their URL; calls link to `<base>/meeting/<id>` and start `/meeting/<id>`; only the ended tab marks previous meetings |
| CallList.Render | zoom/components/CallList.tsx:93-152 | the empty-state message iff the tab's list is empty, otherwise one card per entry in order |
| CallList.UpcomingCardsStartUpcomingCalls | zoom/components/CallList.tsx:121-146 | every card of the upcoming tab starts a call that is upcoming, and none is marked previous |
| CallList.EndedCardsArePrevious | zoom/components/CallList.tsx:127-138 | every card of the ended tab is marked previous and is keyed by an ended call |
| Seqs.Filter | zoom/hooks/useGetCalls.ts:50 | `Array.prototype.filter`: the kept elements are exactly those satisfying the predicate, in order, one per satisfying element |
| Seqs.FlattenSkipsEmpty | zoom/components/CallList.tsx:76-78 | dropping empty lists before flattening changes nothing |
| Seqs.FlattenMembership | zoom/components/CallList.tsx:78 | an element is in the flattening iff it is in one of the lists |
| Text.Trim | zoom/components/MeetingTypeList.tsx:53 | `trim`: no whitespace at either end, empty iff the input is all whitespace |
| Text.TrimRemovesOnlyWhitespace | zoom/components/MeetingTypeList.tsx:122 | what `trim` removes is whitespace: the result is an infix with whitespace on both sides |
| Text.TrimIdempotent | zoom/hooks/useGetCalls.ts:70 | trimming twice is trimming once |
| Text.Split | zoom/components/MeetingTypeList.tsx:53 | `split(',')`: at least one piece, none containing the separator, and joining them back gives the input |
| Text.SplitJoin | zoom/components/MeetingTypeList.tsx:53 | splitting a join of separator-free pieces gives back the pieces |
| Text.Prefix | zoom/components/CallList.tsx:106 | `substring(0, n)`: a prefix of at most `n` characters, the whole string when shorter |
| Text.NatToString | zoom/components/MeetingTypeList.tsx:103 | the decimal text of the count: digits only, no leading zero, denoting the count |

## Left out

- The video-client provider is not part of this model: it only constructs the SDK client and handles tokens.
- Network and SDK calls are left out. These are the call query with its server-side filter and sort, get-or-create, and the recording queries. Their results are inputs: the call sequence, an `SdkResult`, and per-call recording lists or a query function.
- React state, effects, the loading flag, modals, toasts and router pushes are not modelled as such. Toasts and navigations are returned as outcome values, and the loading spinner is left out.
- The lists are `undefined` before the first load. The model treats that as an empty list.
- `crypto.randomUUID` is left out: the meeting id is an input.
- `client.call` returning nothing is left out, as is its "Failed to create meeting" error. The SDK is assumed to always hand back a call object.
- Date parsing, ISO serialisation and the Asia/Karachi `toLocaleString` formatting are not modelled. Instants are integers, and the formatters are given functions. An invalid start date, which makes `toISOString` throw, is not modelled.
- `new URL(...)` in `joinMeeting` is a given function from the trimmed link to `pathname + search`. It returns nothing when the constructor throws.
- End-of-meeting countdowns and timers are not modelled. They are outside these components.
- CallList.Title: counts characters, not the UTF-16 code units `substring` counts.
- MeetingTypeList.RoundedMinutes: uses exact integer arithmetic. It does not model the floating-point division behind `Math.round` for differences beyond 2^53 milliseconds.
- Text.Prefix: counts characters, not the UTF-16 code units `substring` counts; the other string built-ins in `Text` likewise work on characters.
- CallList.ItemKey: keys of different kinds are kept apart; React compares keys as strings, so a recording filename `"3"` and the index 3 would collide, which is not modelled.
- MeetingTypeList.CreateMeeting: the message of the `TypeError` thrown for a cleared end is engine-specific, so it is an input.
