/** The records the hosted call service hands to the components. Instants are milliseconds since
    the epoch; ISO strings are already parsed. */
module Calls {
  import opened Wrappers

  /** An optional ISO instant string as the components see it after `new Date(...)`: absent or
      empty (falsy), present but not a date (every comparison with NaN is false), or an instant. */
  datatype Stamp = Absent | Unparseable | At(ms: int)

  /** The state of a call: `startsAt` and `endedAt` are SDK dates, `description` and `endsAt`
      come from the `custom` bag, where any key may be missing. */
  datatype Call = Call(
    id: string,
    startsAt: Option<int>,
    endedAt: Option<int>,
    description: Option<string>,
    endsAt: Stamp)

  /** A recording of an ended call; `filename` and `startTime` are read defensively in the list. */
  datatype Recording = Recording(filename: Option<string>, url: string, startTime: Stamp)

  /** The description written for a call created without one. */
  const InstantMeeting := "Instant Meeting"

  /** The route prefix of a meeting. */
  const MeetingRoute := "/meeting/"
}
