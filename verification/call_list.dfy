/** The call list: which bucket a tab shows, its empty-state message, the flattened recordings,
    and the card each entry becomes. Date formatting is left to given formatters. */
module CallList {
  import opened Wrappers
  import opened Seqs
  import opened Text
  import opened Calls
  import opened UseGetCalls

  datatype ListType = Ended | Upcoming | Recordings

  /** An entry of a list: a call, or a recording (only the recordings tab holds these). */
  datatype Item = CallItem(call: Call) | RecordingItem(recording: Recording)

  /** The entries of a tab are calls, except on the recordings tab where they are recordings. */
  predicate Fits(t: ListType, item: Item) {
    (t == Recordings) == item.RecordingItem?
  }

  /** `getCalls`: the list a tab shows. */
  function Bucket(t: ListType, ended: seq<Call>, upcoming: seq<Call>, recordings: seq<Recording>): (r: seq<Item>)
    ensures forall k :: 0 <= k < |r| ==> Fits(t, r[k])
    ensures t == Ended ==> |r| == |ended| && forall k :: 0 <= k < |r| ==> r[k] == CallItem(ended[k])
    ensures t == Upcoming ==> |r| == |upcoming| && forall k :: 0 <= k < |r| ==> r[k] == CallItem(upcoming[k])
    ensures t == Recordings ==>
      |r| == |recordings| && forall k :: 0 <= k < |r| ==> r[k] == RecordingItem(recordings[k])
  {
    match t
    case Ended => Map(c => CallItem(c), ended)
    case Recordings => Map(rec => RecordingItem(rec), recordings)
    case Upcoming => Map(c => CallItem(c), upcoming)
  }

  /** `getNoCallsMessage`. */
  function NoCallsMessage(t: ListType): (m: string)
    ensures t == Ended ==> m == "No Previous Calls"
    ensures t == Upcoming ==> m == "No Upcoming Calls"
    ensures t == Recordings ==> m == "No Recordings"
  {
    match t
    case Ended => "No Previous Calls"
    case Upcoming => "No Upcoming Calls"
    case Recordings => "No Recordings"
  }

  /** Each tab has its own empty-state message. */
  lemma NoCallsMessagesDistinct(t: ListType, u: ListType)
    ensures NoCallsMessage(t) != ""
    ensures NoCallsMessage(t) == NoCallsMessage(u) <==> t == u
  {
  }

  /** The recordings of the ended calls: each call's recordings in turn, calls with none
      dropped first. */
  function FetchRecordings(perCall: seq<seq<Recording>>): (r: seq<Recording>)
    ensures r == Flatten(perCall)
    ensures |r| == SumLengths(perCall)
  {
    FlattenSkipsEmpty(perCall);
    Flatten(Filter(IsNonEmpty, perCall))
  }

  /** `queryRecordings` run on every recordings-eligible call: each call's recordings in turn,
      in the order of `calls`, repeats kept; a recording is listed exactly when it belongs to one
      of them. */
  function RecordingsOf(calls: seq<Call>, query: Call -> seq<Recording>): (r: seq<Recording>)
    ensures r == Flatten(Map(query, calls))
    ensures forall x :: x in r <==> exists c :: c in calls && x in query(c)
  {
    var perCall := Map(query, calls);
    forall x
      ensures x in Flatten(perCall) <==> exists c :: c in calls && x in query(c)
    {
      FlattenMembership(perCall, x);
      if exists k :: 0 <= k < |perCall| && x in perCall[k] {
        var k :| 0 <= k < |perCall| && x in perCall[k];
        assert calls[k] in calls && x in query(calls[k]);
      }
      if exists c :: c in calls && x in query(c) {
        var c :| c in calls && x in query(c);
        var k :| 0 <= k < |calls| && calls[k] == c;
        assert x in perCall[k];
      }
    }
    FetchRecordings(perCall)
  }

  /** What `toLocaleString` and `toLocaleTimeString` print for an invalid date. */
  const InvalidDate := "Invalid Date"

  /** `dateTime` renders a date and time (`toLocaleString`, medium date and short time, in the
      Asia/Karachi zone); `time` renders the time of day only. */
  datatype Formatters = Formatters(dateTime: int -> string, time: int -> string)

  /** `formatMeetingTime`. */
  function FormatMeetingTime(c: Call, fmt: Formatters): (r: string)
    ensures c.startsAt.None? ==> r == "No date set"
    ensures c.startsAt.Some? ==> StartsWith(r, fmt.dateTime(c.startsAt.value))
    ensures c.startsAt.Some? && c.endsAt.Absent? ==> r == fmt.dateTime(c.startsAt.value)
    ensures c.startsAt.Some? && c.endsAt.At? ==>
      r == fmt.dateTime(c.startsAt.value) + " - " + fmt.time(c.endsAt.ms)
    ensures c.startsAt.Some? && c.endsAt.Unparseable? ==>
      r == fmt.dateTime(c.startsAt.value) + " - " + InvalidDate
  {
    match c.startsAt
    case None => "No date set"
    case Some(start) =>
      var dateText := fmt.dateTime(start);
      var r :=
        match c.endsAt
        case Absent => dateText
        case Unparseable => dateText + " - " + InvalidDate
        case At(end) => dateText + " - " + fmt.time(end);
      assert r[..|dateText|] == dateText;
      r
  }

  /** The date line of a recording. */
  function RecordingDate(rec: Recording, fmt: Formatters): (r: string)
    ensures rec.startTime.Absent? ==> r == "Not Available"
    ensures rec.startTime.Unparseable? ==> r == InvalidDate
    ensures rec.startTime.At? ==> r == fmt.dateTime(rec.startTime.ms)
  {
    match rec.startTime
    case Absent => "Not Available"
    case Unparseable => InvalidDate
    case At(t) => fmt.dateTime(t)
  }

  /** A React key: a call id, a recording filename, or the position in the list. */
  datatype Key = IdKey(id: string) | FilenameKey(filename: string) | IndexKey(index: nat)

  /** The key of an entry: the call id if there is one, else the filename, else the index. */
  function ItemKey(item: Item, index: nat): (k: Key)
    ensures item.CallItem? ==> k == IdKey(item.call.id)
    ensures item.RecordingItem? && item.recording.filename.Some? ==>
      k == FilenameKey(item.recording.filename.value)
    ensures item.RecordingItem? && item.recording.filename.None? ==> k == IndexKey(index)
  {
    match item
    case CallItem(c) => IdKey(c.id)
    case RecordingItem(rec) =>
      match rec.filename
      case Some(name) => FilenameKey(name)
      case None => IndexKey(index)
  }

  const NoDescription := "No Description"
  const TitleLength := 20

  /** The card title: a truthy description, else the first twenty characters of a truthy
      filename, else a placeholder; never empty. */
  function Title(item: Item): (r: string)
    ensures r != ""
    ensures item.CallItem? && item.call.description.Some? && item.call.description.value != "" ==>
      r == item.call.description.value
    ensures item.RecordingItem? && item.recording.filename.Some? && item.recording.filename.value != "" ==>
      && |r| <= TitleLength
      && StartsWith(item.recording.filename.value, r)
      && (|item.recording.filename.value| <= TitleLength ==> r == item.recording.filename.value)
      && (|item.recording.filename.value| > TitleLength ==> |r| == TitleLength)
    ensures item.CallItem? && (item.call.description.None? || item.call.description.value == "") ==>
      r == NoDescription
    ensures item.RecordingItem? && (item.recording.filename.None? || item.recording.filename.value == "") ==>
      r == NoDescription
  {
    match item
    case CallItem(c) =>
      if c.description.Some? && c.description.value != "" then c.description.value else NoDescription
    case RecordingItem(rec) =>
      if rec.filename.Some? && rec.filename.value != "" then Prefix(rec.filename.value, TitleLength)
      else NoDescription
  }

  /** The card of one entry: the props handed to the meeting card. */
  datatype Card = Card(
    key: Key,
    icon: string,
    title: string,
    date: string,
    isPreviousMeeting: bool,
    link: string,
    buttonIcon: Option<string>,
    buttonText: string,
    target: string)     // where a click on the card's button navigates

  /** The card icon of a tab: an SVG asset under `/icons/`. */
  function Icon(t: ListType): (icon: string)
    ensures StartsWith(icon, "/icons/") && icon[|icon| - 4..] == ".svg"
    ensures t == Ended ==> icon == "/icons/previous.svg"
    ensures t == Upcoming ==> icon == "/icons/upcoming.svg"
    ensures t == Recordings ==> icon == "/icons/recordings.svg"
  {
    match t
    case Ended => "/icons/previous.svg"
    case Upcoming => "/icons/upcoming.svg"
    case Recordings => "/icons/recordings.svg"
  }

  /** Each tab's cards carry their own icon. */
  lemma IconsDistinct(t: ListType, u: ListType)
    ensures Icon(t) == Icon(u) <==> t == u
  {
  }

  /** The card of entry `item` at position `index` of tab `t`; `baseUrl` is the deployment's
      public base URL. */
  function CardFor(t: ListType, item: Item, index: nat, baseUrl: string, fmt: Formatters): (card: Card)
    requires Fits(t, item)
    ensures card.key == ItemKey(item, index) && card.title == Title(item) && card.icon == Icon(t)
    ensures card.isPreviousMeeting <==> t == Ended
    ensures t == Recordings ==>
      && card.link == item.recording.url && card.target == item.recording.url
      && card.buttonText == "Play" && card.buttonIcon == Some("/icons/play.svg")
      && card.date == RecordingDate(item.recording, fmt)
    ensures t != Recordings ==>
      && card.link == baseUrl + MeetingRoute + item.call.id && card.target == MeetingRoute + item.call.id
      && card.buttonText == "Start" && card.buttonIcon == None
      && card.date == FormatMeetingTime(item.call, fmt)
  {
    match item
    case RecordingItem(rec) =>
      Card(ItemKey(item, index), Icon(t), Title(item), RecordingDate(rec, fmt), false,
           rec.url, Some("/icons/play.svg"), "Play", rec.url)
    case CallItem(c) =>
      Card(ItemKey(item, index), Icon(t), Title(item), FormatMeetingTime(c, fmt), t == Ended,
           baseUrl + MeetingRoute + c.id, None, "Start", MeetingRoute + c.id)
  }

  /** What the list renders: the empty-state heading, or one card per entry. */
  datatype View = NoCalls(message: string) | CardList(cards: seq<Card>)

  function Render(t: ListType, ended: seq<Call>, upcoming: seq<Call>, recordings: seq<Recording>,
                  baseUrl: string, fmt: Formatters): (v: View)
    ensures v.NoCalls? <==> |Bucket(t, ended, upcoming, recordings)| == 0
    ensures v.NoCalls? ==> v.message == NoCallsMessage(t)
    ensures v.CardList? ==>
      var b := Bucket(t, ended, upcoming, recordings);
      && |v.cards| == |b|
      && forall k :: 0 <= k < |b| ==> v.cards[k] == CardFor(t, b[k], k, baseUrl, fmt)
  {
    var b := Bucket(t, ended, upcoming, recordings);
    if |b| == 0 then NoCalls(NoCallsMessage(t))
    else CardList(seq(|b|, k requires 0 <= k < |b| => CardFor(t, b[k], k, baseUrl, fmt)))
  }

  /** On the upcoming tab every card starts a call that is upcoming at `now`, and none is marked
      as a previous meeting. */
  lemma UpcomingCardsStartUpcomingCalls(calls: seq<Call>, now: int, recordings: seq<Recording>,
                                         baseUrl: string, fmt: Formatters)
    ensures var v := Render(Upcoming, EndedCalls(calls, now), UpcomingCalls(calls, now), recordings, baseUrl, fmt);
      v.CardList? ==> forall k :: 0 <= k < |v.cards| ==>
        && !v.cards[k].isPreviousMeeting && v.cards[k].buttonText == "Start"
        && exists c :: c in calls && IsUpcoming(c, now) && v.cards[k].target == MeetingRoute + c.id
  {
    var upcoming := UpcomingCalls(calls, now);
    var v := Render(Upcoming, EndedCalls(calls, now), upcoming, recordings, baseUrl, fmt);
    if v.CardList? {
      forall k | 0 <= k < |v.cards|
        ensures exists c :: c in calls && IsUpcoming(c, now) && v.cards[k].target == MeetingRoute + c.id
      {
        var c := upcoming[k];
        assert c in upcoming;
      }
    }
  }

  /** On the ended tab every card is marked as a previous meeting and belongs to an ended call. */
  lemma EndedCardsArePrevious(calls: seq<Call>, now: int, recordings: seq<Recording>,
                              baseUrl: string, fmt: Formatters)
    ensures var v := Render(Ended, EndedCalls(calls, now), UpcomingCalls(calls, now), recordings, baseUrl, fmt);
      v.CardList? ==> forall k :: 0 <= k < |v.cards| ==>
        && v.cards[k].isPreviousMeeting
        && exists c :: c in calls && IsEnded(c, now) && v.cards[k].key == IdKey(c.id)
  {
    var ended := EndedCalls(calls, now);
    var v := Render(Ended, ended, UpcomingCalls(calls, now), recordings, baseUrl, fmt);
    if v.CardList? {
      forall k | 0 <= k < |v.cards|
        ensures exists c :: c in calls && IsEnded(c, now) && v.cards[k].key == IdKey(c.id)
      {
        var c := ended[k];
        assert c in ended;
      }
    }
  }

  /** On a call tab, calls with distinct ids get cards with distinct keys. */
  lemma CallCardKeysDistinct(t: ListType, ended: seq<Call>, upcoming: seq<Call>, recordings: seq<Recording>,
                             baseUrl: string, fmt: Formatters)
    requires t != Recordings
    requires var calls := if t == Ended then ended else upcoming;
      forall a, b :: 0 <= a < b < |calls| ==> calls[a].id != calls[b].id
    ensures var v := Render(t, ended, upcoming, recordings, baseUrl, fmt);
      v.CardList? ==> forall a, b :: 0 <= a < b < |v.cards| ==> v.cards[a].key != v.cards[b].key
  {
    var calls := if t == Ended then ended else upcoming;
    var v := Render(t, ended, upcoming, recordings, baseUrl, fmt);
    if v.CardList? {
      forall a, b | 0 <= a < b < |v.cards|
        ensures v.cards[a].key != v.cards[b].key
      {
        assert v.cards[a].key == IdKey(calls[a].id);
        assert v.cards[b].key == IdKey(calls[b].id);
      }
    }
  }
}
