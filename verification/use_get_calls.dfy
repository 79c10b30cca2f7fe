/** The call classifier of the `useGetCalls` hook: given the queried calls and the instant `now`,
    the ended, upcoming and recordings-eligible lists. */
module UseGetCalls {
  import opened Wrappers
  import opened Seqs
  import opened Text
  import opened Calls

  /** A description that marks a scheduled meeting: present, non-empty, not blank, and not the
      placeholder of an instant meeting. */
  predicate HasRealDescription(d: Option<string>) {
    d.Some? && d.value != "" && Trim(d.value) != "" && d.value != InstantMeeting
  }

  /** The ended filter: explicitly ended, or a parseable `ends_at` strictly before `now`. */
  predicate IsEnded(c: Call, now: int) {
    c.endedAt.Some? || (c.endsAt.At? && c.endsAt.ms < now)
  }

  /** The upcoming filter: not explicitly ended, a real description, and a future `ends_at`, or,
      when there is no `ends_at` at all, a future `startsAt`. */
  predicate IsUpcoming(c: Call, now: int) {
    && c.endedAt.None?
    && HasRealDescription(c.description)
    && match c.endsAt
       case At(t) => t > now
       case Unparseable => false
       case Absent => c.startsAt.Some? && c.startsAt.value > now
  }

  function EndedCalls(calls: seq<Call>, now: int): (r: seq<Call>)
    ensures forall c :: c in r <==> c in calls && IsEnded(c, now)
    ensures |r| == CountWhere(c => IsEnded(c, now), calls)
    ensures IsSubsequence(r, calls)
  {
    Filter(c => IsEnded(c, now), calls)
  }

  function UpcomingCalls(calls: seq<Call>, now: int): (r: seq<Call>)
    ensures forall c :: c in r <==> c in calls && IsUpcoming(c, now)
    ensures |r| == CountWhere(c => IsUpcoming(c, now), calls)
    ensures IsSubsequence(r, calls)
  {
    Filter(c => IsUpcoming(c, now), calls)
  }

  /** The calls whose recordings are fetched: the ended list itself. */
  function CallRecordings(calls: seq<Call>, now: int): (r: seq<Call>)
    ensures r == EndedCalls(calls, now)
    ensures forall c :: c in r <==> c in calls && IsEnded(c, now)
  {
    EndedCalls(calls, now)
  }

  /** An explicitly ended call is ended and not upcoming, whatever its other fields say. */
  lemma ExplicitEndDecides(c: Call, now: int)
    requires c.endedAt.Some?
    ensures IsEnded(c, now) && !IsUpcoming(c, now)
  {
  }

  /** Without an explicit end, a call is ended exactly when its `ends_at` parses to an instant
      strictly before `now`; so `ends_at == now`, an unparseable or a missing `ends_at` is not. */
  lemma EndedByScheduleOnly(c: Call, now: int)
    requires c.endedAt.None?
    ensures IsEnded(c, now) <==> c.endsAt.At? && c.endsAt.ms < now
    ensures c.endsAt == At(now) || c.endsAt == Unparseable || c.endsAt == Absent ==> !IsEnded(c, now)
  {
  }

  /** A call with no description, a blank one, or the instant-meeting placeholder is never
      upcoming. */
  lemma PlaceholderNeverUpcoming(c: Call, now: int)
    requires c.description.None? || Trim(c.description.value) == "" || c.description.value == InstantMeeting
    ensures !IsUpcoming(c, now)
  {
  }

  /** With `ends_at` present, upcoming status is decided by `ends_at` alone: `startsAt` is never
      consulted, so an unparseable `ends_at` is not upcoming even with a future start. */
  lemma EndsAtOverridesStart(c: Call, now: int, start: Option<int>)
    requires c.endsAt != Absent
    ensures IsUpcoming(c, now) <==>
      c.endedAt.None? && HasRealDescription(c.description) && c.endsAt.At? && c.endsAt.ms > now
    ensures IsUpcoming(c.(startsAt := start), now) == IsUpcoming(c, now)
  {
  }

  /** With no `ends_at`, upcoming requires a start strictly after `now`; a call with neither
      field is excluded. */
  lemma StartDecidesWithoutEndsAt(c: Call, now: int)
    requires c.endsAt == Absent
    ensures IsUpcoming(c, now) <==>
      c.endedAt.None? && HasRealDescription(c.description) && c.startsAt.Some? && c.startsAt.value > now
    ensures c.startsAt.None? ==> !IsUpcoming(c, now)
  {
  }

  /** No call is both ended and upcoming at the same instant, so the two lists share no call. */
  lemma EndedAndUpcomingDisjoint(calls: seq<Call>, now: int)
    ensures forall c :: c in EndedCalls(calls, now) ==> c !in UpcomingCalls(calls, now)
  {
  }

  /** Once ended, a call stays ended at every later instant. */
  lemma EndedIsPermanent(c: Call, now: int, later: int)
    requires now <= later && IsEnded(c, now)
    ensures IsEnded(c, later)
  {
  }

  /** A call upcoming at some instant was upcoming at every earlier one: the upcoming list only
      loses calls as time passes. */
  lemma UpcomingOnlyShrinks(c: Call, earlier: int, now: int)
    requires earlier <= now && IsUpcoming(c, now)
    ensures IsUpcoming(c, earlier)
  {
  }

  /** A meeting "Team Sync" starting at `t` and ending half an hour later is upcoming and not
      ended ten minutes in, and ended and not upcoming a minute after its end. */
  lemma ScheduledMeetingLifecycle(id: string, t: int)
    ensures var c := Call(id, Some(t), None, Some("Team Sync"), At(t + 30 * 60000));
      && IsUpcoming(c, t + 10 * 60000) && !IsEnded(c, t + 10 * 60000)
      && IsEnded(c, t + 31 * 60000) && !IsUpcoming(c, t + 31 * 60000)
  {
    assert !IsWhitespace("Team Sync"[0]);
  }

  /** A call created as an instant meeting (empty description) is never upcoming. */
  lemma InstantMeetingNeverUpcoming(c: Call, now: int)
    requires c.description == Some("") || c.description == Some(InstantMeeting)
    ensures c !in UpcomingCalls([c], now)
  {
  }
}
