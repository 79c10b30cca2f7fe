/** The form handlers of the meeting-type list: `createMeeting` (instant and scheduled meetings,
    with invitations) and `joinMeeting` (meeting-link normalisation). Toasts and router pushes
    become the returned outcome. */
module MeetingTypeList {
  import opened Wrappers
  import opened Seqs
  import opened Text
  import opened Calls
  import opened Email

  /** The modal's form state, less the link field, which `JoinMeeting` takes on its own. The
      start picker's handler reads the new date before storing it, so a cleared start never
      reaches the state; `createMeeting` tests for one all the same, and
      `dateTime` keeps that case. The end picker stores whatever it is given, so `endDateTime` is
      `None` once that picker was cleared. */
  datatype FormValues = FormValues(
    dateTime: Option<int>,
    endDateTime: Option<int>,
    description: string,
    members: string)

  /** A toast: a title and an optional description line. */
  datatype Notice = Notice(title: string, detail: Option<string>)

  datatype Member = Member(userId: string, role: string)

  /** The `data` given to get-or-create; instants stand for their ISO serialisation. */
  datatype CallData = CallData(
    startsAt: int,
    description: string,
    endsAt: int,
    duration: int,
    members: Option<seq<Member>>)

  /** How the get-or-create request ended: created, threw an `Error` with a message, or threw
      something else. */
  datatype SdkResult = Created | ThrewError(message: string) | ThrewOther

  datatype CreateOutcome =
    | NotReady                                                // no client or no user: nothing happens
    | Rejected(notice: Notice)                                // validation failed; no call is created
    | Crashed(notice: Notice)                                  // threw before anything was sent
    | Failed(payload: CallData, notice: Notice)               // get-or-create was sent and threw
    | NavigateTo(payload: CallData, path: string)             // instant meeting: open it
    | Scheduled(payload: CallData, memberCount: nat, notice: Notice)

  const CallMemberRole := "call_member"

  /** An entry as the member parser leaves it: non-empty, already trimmed, free of commas. */
  predicate IsCleanEntry(e: string) {
    e != "" && IsTrimmed(e) && ',' !in e
  }

  /** The member field split on commas, each piece trimmed, empty pieces dropped. */
  function ParseMembers(s: string): (r: seq<string>)
    ensures forall e :: e in r <==> e != "" && e in Map(Trim, Split(s, ','))
    ensures IsSubsequence(r, Map(Trim, Split(s, ',')))
    ensures |r| == CountWhere(IsNonEmpty, Map(Trim, Split(s, ',')))
    ensures forall k :: 0 <= k < |r| ==> IsCleanEntry(r[k])
  {
    var m := Map(Trim, Split(s, ','));
    TrimmedPiecesClean(Split(s, ','));
    KeptPiecesClean(m);
    Filter(IsNonEmpty, m)
  }

  lemma TrimmedPiecesClean(pieces: seq<string>)
    requires forall k :: 0 <= k < |pieces| ==> ',' !in pieces[k]
    ensures forall k :: 0 <= k < |Map(Trim, pieces)| ==> IsTrimmed(Map(Trim, pieces)[k])
    ensures forall k :: 0 <= k < |Map(Trim, pieces)| ==> ',' !in Map(Trim, pieces)[k]
  {
    var m := Map(Trim, pieces);
    forall k | 0 <= k < |m|
      ensures ',' !in m[k]
    {
      assert m[k] == Trim(pieces[k]);
      TrimKeepsCommaFree(pieces[k]);
    }
  }

  lemma TrimKeepsCommaFree(p: string)
    requires ',' !in p
    ensures ',' !in Trim(p)
  {
    var r := Trim(p);
    TrimRemovesOnlyWhitespace(p);
    var i := TrimOffset(p);
    forall j | 0 <= j < |r|
      ensures r[j] != ','
    {
      assert r[j] == p[i + j];
    }
  }

  lemma KeptPiecesClean(m: seq<string>)
    requires forall k :: 0 <= k < |m| ==> IsTrimmed(m[k]) && ',' !in m[k]
    ensures forall k :: 0 <= k < |Filter(IsNonEmpty, m)| ==> IsCleanEntry(Filter(IsNonEmpty, m)[k])
  {
    var f := Filter(IsNonEmpty, m);
    forall k | 0 <= k < |f|
      ensures IsCleanEntry(f[k])
    {
      assert f[k] in m;
      var j :| 0 <= j < |m| && m[j] == f[k];
    }
  }

  /** Joining clean entries with `", "` and parsing the result gives the entries back. */
  lemma ParseJoinRoundTrip(es: seq<string>)
    requires forall k :: 0 <= k < |es| ==> IsCleanEntry(es[k])
    ensures ParseMembers(Join(es, ", ")) == es
  {
    if |es| == 0 {
      ParseNothing();
    } else {
      ParseJoinNonEmpty(es);
    }
  }

  lemma ParseJoinNonEmpty(es: seq<string>)
    requires |es| >= 1
    requires forall k :: 0 <= k < |es| ==> IsCleanEntry(es[k])
    ensures ParseMembers(Join(es, ", ")) == es
  {
    var text := Join(es, ", ");
    assert Map(Trim, Split(text, ',')) == es by {
      SplitJoined(es);
      TrimSpaced(es);
    }
    assert Filter(IsNonEmpty, es) == es by {
      FilterKeepsAll(IsNonEmpty, es);
    }
    ParseOfTrimmedPieces(text, es);
  }

  lemma ParseOfTrimmedPieces(text: string, es: seq<string>)
    requires Map(Trim, Split(text, ',')) == es && Filter(IsNonEmpty, es) == es
    ensures ParseMembers(text) == es
  {
  }

  /** Splitting `", "`-joined clean entries on commas leaves the later ones behind one space. */
  lemma SplitJoined(es: seq<string>)
    requires |es| >= 1
    requires forall k :: 0 <= k < |es| ==> ',' !in es[k]
    ensures Split(Join(es, ", "), ',') == [es[0]] + Map(Indent, es[1..])
  {
    var spaced := [es[0]] + Map(Indent, es[1..]);
    JoinCommaSpace(es);
    SpacedCommaFree(es);
    SplitJoin(spaced, ',');
  }

  lemma ParseNothing()
    ensures ParseMembers("") == []
  {
    assert Split("", ',') == [""];
    assert Trim("") == "";
    assert Map(Trim, [""]) == [""];
    assert Filter(IsNonEmpty, [""]) == [];
  }

  lemma SpacedCommaFree(es: seq<string>)
    requires |es| >= 1
    requires forall k :: 0 <= k < |es| ==> ',' !in es[k]
    ensures forall k :: 0 <= k < |[es[0]] + Map(Indent, es[1..])| ==> ',' !in ([es[0]] + Map(Indent, es[1..]))[k]
  {
    var spaced := [es[0]] + Map(Indent, es[1..]);
    forall k | 0 <= k < |spaced|
      ensures ',' !in spaced[k]
    {
      if k > 0 {
        assert spaced[k] == " " + es[k];
      }
    }
  }

  lemma TrimSpaced(es: seq<string>)
    requires |es| >= 1
    requires forall k :: 0 <= k < |es| ==> IsTrimmed(es[k])
    ensures Map(Trim, [es[0]] + Map(Indent, es[1..])) == es
  {
    var trimmed := Map(Trim, [es[0]] + Map(Indent, es[1..]));
    forall k | 0 <= k < |es|
      ensures trimmed[k] == es[k]
    {
      TrimSpacedAt(es, k);
    }
  }

  lemma TrimSpacedAt(es: seq<string>, k: nat)
    requires k < |es| && IsTrimmed(es[k])
    ensures Trim(([es[0]] + Map(Indent, es[1..]))[k]) == es[k]
  {
    var spaced := [es[0]] + Map(Indent, es[1..]);
    if k == 0 {
      TrimOfTrimmed(es[0]);
    } else {
      assert spaced[k] == Indent(es[k]);
      TrimIndented(es[k]);
    }
  }

  /** The addresses to invite: parsed only when both the description and the member field are
      non-empty. */
  function Invitees(v: FormValues): (r: seq<string>)
    ensures v.description == "" || v.members == "" ==> r == []
    ensures v.description != "" && v.members != "" ==> r == ParseMembers(v.members)
  {
    if v.description != "" && v.members != "" then ParseMembers(v.members) else []
  }

  predicate IsInvalidEmail(e: string) {
    !IsEmail(e)
  }

  /** The entries that fail the address check, in input order. */
  function InvalidEmails(es: seq<string>): (r: seq<string>)
    ensures forall e :: e in r <==> e in es && !IsEmail(e)
    ensures IsSubsequence(r, es)
    ensures |r| == CountWhere(IsInvalidEmail, es)
  {
    Filter(IsInvalidEmail, es)
  }

  /** `Math.round(ms / 60000)`: the whole number of minutes nearest to `ms`, halves rounding up. */
  function RoundedMinutes(ms: int): (m: int)
    ensures m * 60000 - 30000 <= ms < m * 60000 + 30000
  {
    (ms + 30000) / 60000
  }

  /** Exactly one integer lies within half a minute below and strictly less than half a minute
      above: the rounding is determined. */
  lemma RoundedMinutesUnique(ms: int, m: int)
    requires m * 60000 - 30000 <= ms < m * 60000 + 30000
    ensures RoundedMinutes(ms) == m
  {
    var n := RoundedMinutes(ms);
    assert (n - m) * 60000 < 60000 && (m - n) * 60000 < 60000;
  }

  function ToMember(email: string): Member {
    Member(email, CallMemberRole)
  }

  /** The get-or-create payload of a meeting. */
  function Payload(start: int, end: int, description: string, emails: seq<string>): (p: CallData)
    ensures p.startsAt == start && p.endsAt == end
    ensures description != "" ==> p.description == description
    ensures description == "" ==> p.description == InstantMeeting
    ensures p.duration * 60000 - 30000 <= end - start < p.duration * 60000 + 30000
    ensures p.members.None? <==> |emails| == 0
    ensures p.members.Some? ==>
      && |p.members.value| == |emails|
      && forall k :: 0 <= k < |emails| ==> p.members.value[k] == Member(emails[k], CallMemberRole)
  {
    CallData(
      start,
      if description != "" then description else InstantMeeting,
      end,
      RoundedMinutes(end - start),
      if |emails| > 0 then Some(Map(ToMember, emails)) else None)
  }

  /** The outcomes in which a call was sent to get-or-create. */
  predicate SentCall(r: CreateOutcome) {
    r.Failed? || r.NavigateTo? || r.Scheduled?
  }

  const InvalidEmailsTitle := "Invalid email addresses"
  const InvalidEmailsLead := "Please check: "

  /** The end instant as the `<=` of the time-range check sees it: a cleared end converts to 0. */
  function EndAsNumber(end: Option<int>): (n: int)
    ensures end.Some? ==> n == end.value
    ensures end.None? ==> n == 0
  {
    match end
    case Some(t) => t
    case None => 0
  }

  /** The checks `createMeeting` runs before anything is sent, in order: a start date, an end
      after the start (scheduled meetings only), and well-formed invitations. `None` when all
      pass; otherwise the toast shown. */
  function Validate(v: FormValues): (r: Option<Notice>)
    ensures v.dateTime.None? ==> r == Some(Notice("Please select a date and time", None))
    ensures v.dateTime.Some? && v.description != "" && EndAsNumber(v.endDateTime) <= v.dateTime.value ==>
      r == Some(Notice("Invalid time range", Some("End time must be after start time")))
    ensures r.None? <==>
      && v.dateTime.Some?
      && (v.description != "" ==> EndAsNumber(v.endDateTime) > v.dateTime.value)
      && (forall e :: e in Invitees(v) ==> IsEmail(e))
    ensures r.Some? && r.value.title == InvalidEmailsTitle ==>
      r.value.detail == Some(InvalidEmailsLead + Join(InvalidEmails(Invitees(v)), ", "))
  {
    if v.dateTime.None? then Some(Notice("Please select a date and time", None))
    else if v.description != "" && EndAsNumber(v.endDateTime) <= v.dateTime.value then
      Some(Notice("Invalid time range", Some("End time must be after start time")))
    else
      var bad := InvalidEmails(Invitees(v));
      if |bad| > 0 then
        assert bad[0] in Invitees(v) && !IsEmail(bad[0]);
        Some(Notice(InvalidEmailsTitle, Some(InvalidEmailsLead + Join(bad, ", "))))
      else
        assert forall e :: e in Invitees(v) ==> e !in bad;
        None
  }

  /** The toast of a scheduled meeting. */
  function ScheduledNotice(count: nat): (n: Notice)
    ensures n.title == "Meeting Scheduled" && n.detail.Some?
    ensures count > 0 ==> n.detail.value == "Invited " + NatToString(count) + " member(s)"
    ensures count == 0 ==> n.detail.value == "Meeting created successfully"
  {
    Notice("Meeting Scheduled", Some(
      if count > 0 then "Invited " + NatToString(count) + " member(s)"
      else "Meeting created successfully"))
  }

  const FailedTitle := "Failed to create Meeting"

  /** `createMeeting`, with `ready` standing for "a video client and a signed-in user exist",
      `id` for the fresh UUID, `sdk` for how get-or-create ended, and `typeErrorMessage` for the
      message of the `TypeError` the engine raises when `getTime` is read off a cleared end. */
  function CreateMeeting(ready: bool, v: FormValues, id: string, sdk: SdkResult, typeErrorMessage: string)
    : (r: CreateOutcome)
    ensures r.NotReady? <==> !ready
    ensures r.Rejected? <==> ready && Validate(v).Some?
    ensures r.Rejected? ==> r.notice == Validate(v).value
    ensures r.Crashed? <==> ready && Validate(v).None? && v.endDateTime.None?
    ensures r.Crashed? ==> r.notice == Notice(FailedTitle, Some(typeErrorMessage))
    ensures SentCall(r) ==>
      && ready && Validate(v).None? && v.endDateTime.Some?
      && r.payload == Payload(v.dateTime.value, v.endDateTime.value, v.description, Invitees(v))
    ensures r.Failed? <==> ready && Validate(v).None? && v.endDateTime.Some? && sdk != Created
    ensures r.Failed? ==>
      r.notice == Notice(FailedTitle, Some(if sdk.ThrewError? then sdk.message else "Please try again"))
    ensures r.NavigateTo? <==>
      ready && Validate(v).None? && v.endDateTime.Some? && sdk == Created && v.description == ""
    ensures r.NavigateTo? ==> r.path == MeetingRoute + id
    ensures r.Scheduled? ==>
      && v.description != ""
      && (r.payload.members.None? ==> r.memberCount == 0)
      && (r.payload.members.Some? ==> r.memberCount == |r.payload.members.value|)
      && r.notice == ScheduledNotice(r.memberCount)
  {
    if !ready then NotReady
    else
      match Validate(v)
      case Some(notice) => Rejected(notice)
      case None =>
        match v.endDateTime
        case None => Crashed(Notice(FailedTitle, Some(typeErrorMessage)))
        case Some(end) =>
          var emails := Invitees(v);
          var payload := Payload(v.dateTime.value, end, v.description, emails);
          match sdk
          case ThrewError(message) => Failed(payload, Notice(FailedTitle, Some(message)))
          case ThrewOther => Failed(payload, Notice(FailedTitle, Some("Please try again")))
          case Created =>
            if v.description == "" then NavigateTo(payload, MeetingRoute + id)
            else Scheduled(payload, |emails|, ScheduledNotice(|emails|))
  }

  /** A cleared end never lets a call be sent. A scheduled meeting starting at or after the epoch
      is refused as an invalid range, because the cleared end compares as 0; an instant meeting
      throws when its duration is computed. */
  lemma ClearedEndSendsNothing(ready: bool, v: FormValues, id: string, sdk: SdkResult, typeErrorMessage: string)
    requires v.endDateTime.None?
    ensures var r := CreateMeeting(ready, v, id, sdk, typeErrorMessage);
      && !SentCall(r)
      && (ready && v.dateTime.Some? && v.description != "" && v.dateTime.value >= 0 ==>
            r == Rejected(Notice("Invalid time range", Some("End time must be after start time"))))
      && (ready && v.dateTime.Some? && v.description == "" ==>
            r == Crashed(Notice(FailedTitle, Some(typeErrorMessage))))
  {
  }

  /** A scheduled meeting whose invitations include a malformed address is refused, and the
      toast names exactly the failing entries, in order: parsing the text after the lead-in
      gives them back. */
  lemma InvalidInvitesAreNamed(ready: bool, v: FormValues, id: string, sdk: SdkResult, typeErrorMessage: string)
    requires ready && v.dateTime.Some? && v.description != "" && EndAsNumber(v.endDateTime) > v.dateTime.value
    requires exists e :: e in Invitees(v) && !IsEmail(e)
    ensures var r := CreateMeeting(ready, v, id, sdk, typeErrorMessage);
      && r.Rejected? && r.notice.title == InvalidEmailsTitle && r.notice.detail.Some?
      && StartsWith(r.notice.detail.value, InvalidEmailsLead)
      && ParseMembers(r.notice.detail.value[|InvalidEmailsLead|..]) == InvalidEmails(Invitees(v))
  {
    var bad := InvalidEmails(Invitees(v));
    var joined := Join(bad, ", ");
    var e :| e in Invitees(v) && !IsEmail(e);
    assert Validate(v) == Some(Notice(InvalidEmailsTitle, Some(InvalidEmailsLead + joined))) by {
      InvalidInviteRejected(v, e);
    }
    assert (InvalidEmailsLead + joined)[|InvalidEmailsLead|..] == joined;
    assert ParseMembers(joined) == bad by {
      InvalidEntriesClean(Invitees(v));
      ParseJoinRoundTrip(bad);
    }
  }

  /** With a start, a valid range and a malformed invitation, the invitation check rejects. */
  lemma InvalidInviteRejected(v: FormValues, e: string)
    requires v.dateTime.Some? && v.description != "" && EndAsNumber(v.endDateTime) > v.dateTime.value
    requires e in Invitees(v) && !IsEmail(e)
    ensures Validate(v) == Some(Notice(InvalidEmailsTitle, Some(InvalidEmailsLead + Join(InvalidEmails(Invitees(v)), ", "))))
  {
    InvalidEmailsNonEmpty(Invitees(v), e);
  }

  lemma InvalidEmailsNonEmpty(es: seq<string>, e: string)
    requires e in es && !IsEmail(e)
    ensures |InvalidEmails(es)| > 0
  {
    assert e in InvalidEmails(es);
  }

  /** The failing entries of a parsed member list are clean entries themselves. */
  lemma InvalidEntriesClean(es: seq<string>)
    requires forall k :: 0 <= k < |es| ==> IsCleanEntry(es[k])
    ensures forall k :: 0 <= k < |InvalidEmails(es)| ==> IsCleanEntry(InvalidEmails(es)[k])
  {
    var bad := InvalidEmails(es);
    forall k | 0 <= k < |bad|
      ensures IsCleanEntry(bad[k])
    {
      assert bad[k] in es;
      var j :| 0 <= j < |es| && es[j] == bad[k];
    }
  }

  /** An instant meeting (empty description) skips the time-range and invitation checks. */
  lemma InstantMeetingSkipsChecks(ready: bool, v: FormValues, id: string, typeErrorMessage: string)
    requires ready && v.dateTime.Some? && v.endDateTime.Some? && v.description == ""
    ensures CreateMeeting(ready, v, id, Created, typeErrorMessage) == NavigateTo(
      CallData(v.dateTime.value, InstantMeeting, v.endDateTime.value,
               RoundedMinutes(v.endDateTime.value - v.dateTime.value), None),
      MeetingRoute + id)
  {
  }

  datatype JoinOutcome = JoinRejected(notice: Notice) | Navigate(path: string)

  const InvalidLinkFormat := "Invalid meeting link format"

  /** `joinMeeting`; `link` is the form's link field, which only this operation reads. `urlPath`
      stands for `new URL(link)` followed by `pathname + search`; `None` when the constructor
      throws. */
  function JoinMeeting(link: string, urlPath: string -> Option<string>): (r: JoinOutcome)
    ensures link == "" ==> r == JoinRejected(Notice("Please enter a meeting link", None))
    ensures r.Navigate? ==> StartsWith(r.path, MeetingRoute)
    ensures link != "" && !Contains(Trim(link), "http") && '/' !in Trim(link) ==>
      r == Navigate(MeetingRoute + Trim(link))
    ensures link != "" && !Contains(Trim(link), "http") && '/' in Trim(link) ==>
      (r.Navigate? <==> StartsWith(Trim(link), MeetingRoute)) && (r.Navigate? ==> r.path == Trim(link))
    ensures (link != "" && !Contains(Trim(link), "http") && '/' in Trim(link)
             && !StartsWith(Trim(link), MeetingRoute)) ==>
      r == JoinRejected(Notice(InvalidLinkFormat, None))
    ensures link != "" && Contains(Trim(link), "http") && urlPath(Trim(link)).None? ==>
      r == JoinRejected(Notice("Invalid meeting link. Please check and try again.", None))
    ensures link != "" && Contains(Trim(link), "http") && urlPath(Trim(link)).Some? ==>
      var p := urlPath(Trim(link)).value;
      var q := if '/' in p then p else MeetingRoute + p;
      r == if StartsWith(q, MeetingRoute) then Navigate(q) else JoinRejected(Notice(InvalidLinkFormat, None))
  {
    if link == "" then JoinRejected(Notice("Please enter a meeting link", None))
    else
      var trimmed := Trim(link);
      var parsed := if Contains(trimmed, "http") then urlPath(trimmed) else Some(trimmed);
      match parsed
      case None => JoinRejected(Notice("Invalid meeting link. Please check and try again.", None))
      case Some(p) =>
        var path := if '/' !in p then MeetingRoute + p else p;
        assert '/' !in p ==> path[..|MeetingRoute|] == MeetingRoute;
        if !StartsWith(path, MeetingRoute) then JoinRejected(Notice(InvalidLinkFormat, None))
        else Navigate(path)
  }

  /** A link of blanks passes the emptiness test and trims to the empty id: it opens the bare
      meeting route. */
  lemma BlankLinkOpensBareRoute(link: string, urlPath: string -> Option<string>)
    requires link != "" && AllWhitespace(link)
    ensures JoinMeeting(link, urlPath) == Navigate(MeetingRoute)
  {
    assert Trim(link) == "";
    assert !Contains("", "http");
    assert MeetingRoute + "" == MeetingRoute;
  }

  /** The link the app hands out, the public base URL followed by `/meeting/<id>`, joins that
      meeting once the URL parser yields its path. */
  lemma SharedLinkJoins(link: string, urlPath: string -> Option<string>, id: string)
    requires Contains(Trim(link), "http") && urlPath(Trim(link)) == Some(MeetingRoute + id)
    ensures JoinMeeting(link, urlPath) == Navigate(MeetingRoute + id)
  {
    var path := MeetingRoute + id;
    assert link != "" by {
      ContainsFits(Trim(link), "http");
    }
    assert '/' in path by {
      assert path[0] == '/';
    }
    assert StartsWith(path, MeetingRoute) by {
      assert path[..|MeetingRoute|] == MeetingRoute;
    }
  }
}
