/** The rotation builder of packages/display/src/rotation.ts: the reads of a fetch in, the slides out. */
module Rotation {
  import opened Wrappers
  import opened Texts
  import opened Instants
  import opened Sorting
  import opened Busy
  import C = Contract
  import J = Json
  import P = Parse
  import Z = ZonedTime

  const NEWS_SLIDES := 10
  const EVENTS_DAYS := 31
  const NEWS_SECONDS := 15
  const SLIDE_SECONDS := 20
  const DOT: CodeUnit := 46
  const SMALL_H: CodeUnit := 104

  // ---------- Inputs: times as `Date.parse` reads them, numbers as JavaScript has them ----------

  datatype NewsItem = NewsItem(id: Text, title: Text, paragraphs: seq<Text>, pictures: seq<Candidate>,
                               publishedAt: Option<int>)

  datatype Candidate = Candidate(mediaFileId: Text, alt: Text)

  datatype PictureFile = PictureFile(contentType: Text, byteSize: J.Number, version: Text)

  datatype OccurrenceInput = OccurrenceInput(occurrenceId: Text, title: Text, description: Option<Text>,
                                             location: Option<Text>,
                                             startsAt: Option<int>, endsAt: Option<int>, calledOff: bool,
                                             placesLeft: Option<J.Number>)

  datatype MeetingNotice = MeetingNotice(meetingId: Text, kind: C.MeetingKind, startsAt: Option<int>, place: Text,
                                         digitalParticipation: Option<Text>, agenda: seq<AgendaInput>)

  datatype AgendaInput = AgendaInput(position: J.Number, title: Text)

  /** `mode` is absent when it is none of the three. */
  datatype ResourceInput = ResourceInput(id: Text, name: Text, mode: Option<C.Mode>, slotMinutes: Option<J.Number>,
                                         opensAtMinute: Option<J.Number>, closesAtMinute: Option<J.Number>)

  /** `from` and `to` are absent when they are invalid dates. */
  datatype AvailabilityInput = AvailabilityInput(from: Option<int>, to: Option<int>, resources: seq<ResourceInput>,
                                                 busy: seq<Booking>)

  datatype RotationInput = RotationInput(now: int, news: Option<seq<NewsItem>>,
                                         occurrences: Option<seq<OccurrenceInput>>,
                                         notices: Option<seq<MeetingNotice>>, availability: Option<AvailabilityInput>,
                                         pictures: map<Text, PictureFile>)

  // ---------- Parts of a slide ----------

  function SlideId(prefix: Text, id: Text, hash: Text -> Text): Text {
    var plain := prefix + [DOT] + id;
    if C.IsSlideId(plain) then plain else prefix + [DOT, SMALL_H] + hash(id)
  }

  /** What `toString(36)` gives of a 53-bit number. */
  predicate IsBase36(t: Text) {
    1 <= |t| <= 11 && forall i :: 0 <= i < |t| ==> 48 <= t[i] <= 57 || 97 <= t[i] <= 122
  }

  ghost predicate IsHash(hash: Text -> Text) {
    forall t :: IsBase36(hash(t))
  }

  function CountOf(n: J.Number): Option<int> {
    var i := J.IntegerOf(J.Num(n));
    if i.Some? && i.value >= 0 then i else None
  }

  function MinutesOrNull(m: Option<J.Number>): Option<int> {
    if m.None? then None
    else
      var i := CountOf(m.value);
      if i.Some? && i.value <= C.MINUTES_IN_A_DAY then i else None
  }

  function OptionalText(t: Option<Text>, max: int): Option<Text> {
    if t.Some? && !Blank(t.value) then Some(ShortenText(t.value, max)) else None
  }

  function PlacesLeft(n: Option<J.Number>): Option<int> {
    if n.Some? && n.value.Finite? then Some(if n.value.value.Floor < 0 then 0 else n.value.value.Floor) else None
  }

  function PositionOf(position: J.Number, index: nat): int {
    var i := J.IntegerOf(J.Num(position));
    if i.Some? then i.value else index + 1
  }

  // ---------- News ----------

  function FirstPicture(candidates: seq<Candidate>, pictures: map<Text, PictureFile>): Option<C.PictureRef> {
    if candidates == [] then None
    else
      var c := candidates[0];
      if c.mediaFileId in pictures && c.mediaFileId != [] && CountOf(pictures[c.mediaFileId].byteSize).Some? then
        var file := pictures[c.mediaFileId];
        Some(C.PictureRef(c.mediaFileId, file.contentType, CountOf(file.byteSize).value, file.version,
                          ShortenText(c.alt, C.ALT)))
      else FirstPicture(candidates[1..], pictures)
  }

  function NewsSlide(item: NewsItem, publishedAt: int, pictures: map<Text, PictureFile>, hash: Text -> Text): C.Slide {
    C.Slide(SlideId(P.NEWS, item.id, hash), NEWS_SECONDS, None, C.NewsSource, None,
            C.News(ShortenText(item.title, C.TITLE), ShortenTexts(item.paragraphs, C.PARAGRAPHS),
                   FirstPicture(item.pictures, pictures),
                   ToInstant(publishedAt)))
  }

  /** The items that can be dated, each the first with its id. */
  function Dated(items: seq<NewsItem>, hash: Text -> Text): (r: seq<NewsItem>)
    ensures forall i :: 0 <= i < |r| ==> r[i].publishedAt.Some?
  {
    if items == [] then []
    else
      var front, item := Dated(items[..|items| - 1], hash), items[|items| - 1];
      if item.publishedAt.None? || SlideId(P.NEWS, item.id, hash) in NewsIds(front, hash) then front else front + [item]
  }

  function NewsIds(items: seq<NewsItem>, hash: Text -> Text): set<Text> {
    set i | 0 <= i < |items| :: SlideId(P.NEWS, items[i].id, hash)
  }

  /** The items that get a slide: the first ten. */
  function ShownNews(items: seq<NewsItem>, hash: Text -> Text): (r: seq<NewsItem>)
    ensures forall i :: 0 <= i < |r| ==> r[i].publishedAt.Some?
    ensures |r| <= NEWS_SLIDES
  {
    var all := Dated(items, hash);
    if |all| <= NEWS_SLIDES then all else all[..NEWS_SLIDES]
  }

  function NewsSlides(items: seq<NewsItem>, pictures: map<Text, PictureFile>, hash: Text -> Text): seq<C.Slide> {
    var shown := ShownNews(items, hash);
    seq(|shown|, i requires 0 <= i < |shown| => NewsSlide(shown[i], shown[i].publishedAt.value, pictures, hash))
  }

  // ---------- Events ----------

  datatype Entry = Entry(occurrence: OccurrenceInput, startsAt: int, endsAt: int)

  predicate IsComing(o: OccurrenceInput, now: int) {
    o.startsAt.Some? && o.endsAt.Some? && o.endsAt.value > now && o.startsAt.value < now + EVENTS_DAYS * DAY
  }

  function Coming(occurrences: seq<OccurrenceInput>, now: int): seq<Entry> {
    if occurrences == [] then []
    else
      var front, o := Coming(occurrences[..|occurrences| - 1], now), occurrences[|occurrences| - 1];
      if IsComing(o, now) then front + [Entry(o, o.startsAt.value, o.endsAt.value)] else front
  }

  predicate Sooner(a: Entry, b: Entry) {
    a.startsAt < b.startsAt
    || (a.startsAt == b.startsAt && !TextLess(b.occurrence.occurrenceId, a.occurrence.occurrenceId))
  }

  /** The occurrences an events slide lists: the soonest eight. */
  function Listed(occurrences: seq<OccurrenceInput>, now: int): (r: seq<Entry>)
    ensures |r| <= C.OCCURRENCES_MAX
  {
    var sorted := Sort(Coming(occurrences, now), Sooner);
    if |sorted| <= C.OCCURRENCES_MAX then sorted else sorted[..C.OCCURRENCES_MAX]
  }

  function OccurrenceOf(e: Entry): C.Occurrence {
    var o := e.occurrence;
    C.Occurrence(ShortenText(o.title, C.TITLE), OptionalText(o.description, C.DESCRIPTION),
                 OptionalText(o.location, C.LOCATION),
                 ToInstant(e.startsAt), ToInstant(e.endsAt), o.calledOff, PlacesLeft(o.placesLeft))
  }

  function EventsSlide(occurrences: seq<OccurrenceInput>, now: int): Option<C.Slide> {
    var listed := Listed(occurrences, now);
    if listed == [] then None
    else Some(C.Slide(P.EVENTS, SLIDE_SECONDS, None, C.EventsSource, None,
                      C.Events(seq(|listed|, i requires 0 <= i < |listed| => OccurrenceOf(listed[i])))))
  }

  // ---------- Meeting ----------

  predicate Before(a: MeetingNotice, b: MeetingNotice)
    requires a.startsAt.Some? && b.startsAt.Some?
  {
    a.startsAt.value < b.startsAt.value || (a.startsAt.value == b.startsAt.value && TextLess(a.meetingId, b.meetingId))
  }

  predicate NotBegun(n: MeetingNotice, now: int) {
    n.startsAt.Some? && n.startsAt.value > now
  }

  function Soonest(notices: seq<MeetingNotice>, now: int): (r: Option<MeetingNotice>)
    ensures r.Some? ==> NotBegun(r.value, now)
  {
    if notices == [] then None
    else
      var front, n := Soonest(notices[..|notices| - 1], now), notices[|notices| - 1];
      if NotBegun(n, now) && (front.None? || Before(n, front.value)) then Some(n) else front
  }

  datatype Placed = Placed(item: AgendaInput, index: nat)

  predicate Ahead(a: Placed, b: Placed) {
    var p, q := PositionOf(a.item.position, a.index), PositionOf(b.item.position, b.index);
    p < q || (p == q && a.index <= b.index)
  }

  function PlacedItems(agenda: seq<AgendaInput>): seq<Placed> {
    seq(|agenda|, i requires 0 <= i < |agenda| => Placed(agenda[i], i))
  }

  function AgendaOf(agenda: seq<AgendaInput>): (r: seq<C.AgendaItem>)
    ensures |r| <= C.AGENDA_ITEMS
  {
    var sorted := Sort(PlacedItems(agenda), Ahead);
    var first := if |sorted| <= C.AGENDA_ITEMS then sorted else sorted[..C.AGENDA_ITEMS];
    seq(|first|, i requires 0 <= i < |first| =>
      C.AgendaItem(PositionOf(first[i].item.position, first[i].index),
                   ShortenText(first[i].item.title, C.AGENDA_TITLE)))
  }

  function MeetingSlide(notices: seq<MeetingNotice>, now: int, hash: Text -> Text): Option<C.Slide> {
    var soonest := Soonest(notices, now);
    if soonest.None? then None
    else
      var n := soonest.value;
      var startsAt := ToInstant(n.startsAt.value);
      Some(C.Slide(SlideId(P.MEETING, n.meetingId, hash), SLIDE_SECONDS, Some(startsAt), C.MeetingSource, None,
                   C.Meeting(n.kind, startsAt, ShortenText(n.place, C.PLACE),
                             OptionalText(n.digitalParticipation, C.DIGITAL_PARTICIPATION), AgendaOf(n.agenda))))
  }

  // ---------- Availability ----------

  datatype Span = Span(from: int, to: int)

  /** The span an availability slide tells, or none when nothing of it is left. */
  function WindowOf(a: AvailabilityInput, now: int): Option<Span> {
    if a.from.None? || a.to.None? then None
    else
      var from := FloorToMinute(Max(a.from.value, now));
      var to := FloorToSecond(Min(a.to.value, from + C.AVAILABILITY_DAYS * DAY));
      if to <= from then None else Some(Span(from, to))
  }

  /** `availabilityWindow`. */
  function AvailabilityWindow(now: int, zone: Z.Zone): Interval {
    Interval(FloorToMinute(now), Z.ZonedDayStartAfter(now, 2, zone))
  }

  function Known(resources: seq<ResourceInput>): (r: seq<ResourceInput>)
    ensures forall i :: 0 <= i < |r| ==> r[i].mode.Some?
  {
    if resources == [] then []
    else
      var front, x := Known(resources[..|resources| - 1]), resources[|resources| - 1];
      if x.mode.Some? then front + [x] else front
  }

  function ShownResources(resources: seq<ResourceInput>): (r: seq<ResourceInput>)
    ensures forall i :: 0 <= i < |r| ==> r[i].mode.Some?
    ensures |r| <= C.RESOURCES_MAX
  {
    var known := Known(resources);
    if |known| <= C.RESOURCES_MAX then known else known[..C.RESOURCES_MAX]
  }

  function IntervalsText(busy: seq<Interval>): (r: seq<C.BusyInterval>)
    ensures |r| == |busy|
  {
    seq(|busy|, i requires 0 <= i < |busy| => C.BusyInterval(ToInstant(busy[i].start), ToInstant(busy[i].end)))
  }

  function ResourceOf(r: ResourceInput, bookings: seq<Booking>, span: Span, now: int): C.Resource
    requires r.mode.Some?
  {
    C.Resource(ShortenText(r.name, C.RESOURCE_NAME), r.mode.value, MinutesOrNull(r.slotMinutes),
               MinutesOrNull(r.opensAtMinute),
               MinutesOrNull(r.closesAtMinute), IntervalsText(BusyOf(r.id, bookings, span.from, span.to, now)))
  }

  function AvailabilitySlide(a: AvailabilityInput, now: int): Option<C.Slide> {
    var span := WindowOf(a, now);
    var resources := ShownResources(a.resources);
    if span.None? || resources == [] then None
    else Some(C.Slide(P.AVAILABILITY, SLIDE_SECONDS, None, C.AvailabilitySource, None,
                      C.Availability(ToInstant(span.value.from), ToInstant(span.value.to),
                                     seq(|resources|, i requires 0 <= i < |resources| =>
                                       ResourceOf(resources[i], a.busy, span.value, now)))))
  }

  // ---------- The rotation ----------

  function OrNone(slide: Option<C.Slide>): seq<C.Slide> {
    if slide.Some? then [slide.value] else []
  }

  function NewsPart(input: RotationInput, hash: Text -> Text): seq<C.Slide> {
    if input.news.Some? then NewsSlides(input.news.value, input.pictures, hash) else []
  }

  function EventsPart(input: RotationInput): seq<C.Slide> {
    if input.occurrences.Some? then OrNone(EventsSlide(input.occurrences.value, input.now)) else []
  }

  function MeetingPart(input: RotationInput, hash: Text -> Text): seq<C.Slide> {
    if input.notices.Some? then OrNone(MeetingSlide(input.notices.value, input.now, hash)) else []
  }

  function AvailabilityPart(input: RotationInput): seq<C.Slide> {
    if input.availability.Some? then OrNone(AvailabilitySlide(input.availability.value, input.now)) else []
  }

  function BuildRotation(input: RotationInput, hash: Text -> Text): seq<C.Slide> {
    NewsPart(input, hash) + EventsPart(input) + MeetingPart(input, hash) + AvailabilityPart(input)
  }

  // ---------- Texts and ids are within the limits ----------

  lemma Shortened(t: Text, max: int)
    requires max >= 1
    ensures C.Within(ShortenText(t, max), max)
  {
    ShortenTextMeaning(t, max);
    CharactersAtMostLength(ShortenText(t, max));
  }

  lemma ShortenedTogether(ts: seq<Text>, max: nat)
    ensures C.TogetherWithin(ShortenTexts(ts, max), max)
  {
    ShortenTextsMeaning(ts, max);
    TotalCharactersAtMostLengths(ShortenTexts(ts, max));
  }

  lemma OptionalShortened(t: Option<Text>, max: int)
    requires max >= 1
    ensures C.WithinOrNone(OptionalText(t, max), max)
  {
    if t.Some? {
      Shortened(t.value, max);
    }
  }

  lemma PrefixUnits()
    ensures |P.NEWS| == 4 && |P.MEETING| == 7 && C.IsSlideId(P.NEWS) && C.IsSlideId(P.MEETING) && C.IsSlideId(P.EVENTS)
            && C.IsSlideId(P.AVAILABILITY)
    ensures P.NEWS[0] == 110 && P.MEETING[0] == 109 && P.EVENTS[0] == 101 && P.AVAILABILITY[0] == 97
  {
    assert "news"[0] == 'n' && "meeting"[0] == 'm' && "events"[0] == 'e' && "availability"[0] == 'a';
    assert forall i :: 0 <= i < 4 ==> 'a' <= "news"[i] <= 'z';
    assert forall i :: 0 <= i < 7 ==> 'a' <= "meeting"[i] <= 'z';
    assert forall i :: 0 <= i < 6 ==> 'a' <= "events"[i] <= 'z';
    assert forall i :: 0 <= i < 12 ==> 'a' <= "availability"[i] <= 'z';
  }

  lemma SlideIdMatches(prefix: Text, id: Text, hash: Text -> Text)
    requires IsHash(hash) && C.IsSlideId(prefix) && |prefix| <= 7
    ensures C.IsSlideId(SlideId(prefix, id, hash)) && SlideId(prefix, id, hash)[0] == prefix[0]
  {
    assert IsBase36(hash(id));
  }

  // ---------- Each slide is accepted exactly when its times can be written ----------

  lemma WrittenInstant(time: int)
    ensures IsInstant(ToInstant(time)) <==> InYears(time)
    ensures InYears(time) ==> TimeOf(ToInstant(time)) == FloorToSecond(time)
  {
    hide InYears, ToInstant, InstantTime;
    if InYears(time) {
      ToInstantRead(time);
    } else {
      ToInstantRefused(time);
    }
  }

  lemma {:induction false} FirstPictureValid(candidates: seq<Candidate>, pictures: map<Text, PictureFile>)
    ensures FirstPicture(candidates, pictures).Some? ==> C.ValidPicture(FirstPicture(candidates, pictures).value)
  {
    hide ShortenText, Characters;
    if candidates != [] {
      FirstPictureValid(candidates[1..], pictures);
      Shortened(candidates[0].alt, C.ALT);
    }
  }

  lemma NewsSlideValidIff(item: NewsItem, publishedAt: int, pictures: map<Text, PictureFile>, hash: Text -> Text)
    requires IsHash(hash)
    ensures C.ValidSlide(NewsSlide(item, publishedAt, pictures, hash)) <==> InYears(publishedAt)
  {
    hide InYears, IsInstant, ToInstant, ShortenText, ShortenTexts, FirstPicture, SlideId, C.IsSlideId, C.ValidPicture,
         Characters, TotalCharacters, J.Ascii;
    PrefixUnits();
    SlideIdMatches(P.NEWS, item.id, hash);
    FirstPictureValid(item.pictures, pictures);
    Shortened(item.title, C.TITLE);
    ShortenedTogether(item.paragraphs, C.PARAGRAPHS);
    WrittenInstant(publishedAt);
  }

  predicate EntryInYears(e: Entry) {
    InYears(e.startsAt) && InYears(e.endsAt)
  }

  lemma OccurrenceValidIff(e: Entry)
    ensures C.ValidOccurrence(OccurrenceOf(e)) <==> EntryInYears(e)
  {
    hide InYears, IsInstant, ToInstant, ShortenText, Characters, Blank;
    Shortened(e.occurrence.title, C.TITLE);
    OptionalShortened(e.occurrence.description, C.DESCRIPTION);
    OptionalShortened(e.occurrence.location, C.LOCATION);
    WrittenInstant(e.startsAt);
    WrittenInstant(e.endsAt);
  }

  lemma EventsSlideValidIff(occurrences: seq<OccurrenceInput>, now: int)
    requires EventsSlide(occurrences, now).Some?
    ensures C.ValidSlide(EventsSlide(occurrences, now).value)
            <==> forall i :: 0 <= i < |Listed(occurrences, now)| ==> EntryInYears(Listed(occurrences, now)[i])
  {
    hide C.ValidOccurrence, OccurrenceOf, Listed, EntryInYears, C.IsSlideId, J.Ascii;
    PrefixUnits();
    var listed := Listed(occurrences, now);
    var body := EventsSlide(occurrences, now).value.body;
    forall i | 0 <= i < |listed| ensures C.ValidOccurrence(body.occurrences[i]) <==> EntryInYears(listed[i]) {
      OccurrenceValidIff(listed[i]);
      assert body.occurrences[i] == OccurrenceOf(listed[i]);
    }
  }

  lemma AheadIsOrder()
    ensures IsOrder(Ahead)
  {
  }

  lemma AgendaValid(agenda: seq<AgendaInput>)
    ensures forall i :: 0 <= i < |AgendaOf(agenda)| ==> C.ValidAgendaItem(AgendaOf(agenda)[i])
  {
    hide ShortenText, Characters;
    var sorted := Sort(PlacedItems(agenda), Ahead);
    forall i | 0 <= i < |AgendaOf(agenda)| ensures C.ValidAgendaItem(AgendaOf(agenda)[i]) {
      Shortened(sorted[i].item.title, C.AGENDA_TITLE);
    }
  }

  lemma MeetingSlideValidIff(notices: seq<MeetingNotice>, now: int, hash: Text -> Text)
    requires IsHash(hash) && MeetingSlide(notices, now, hash).Some?
    ensures C.ValidSlide(MeetingSlide(notices, now, hash).value)
            <==> InYears(Soonest(notices, now).value.startsAt.value)
  {
    hide InYears, IsInstant, ToInstant, ShortenText, OptionalText, SlideId, C.IsSlideId, Characters, AgendaOf, Soonest,
         C.ValidAgendaItem, J.Ascii;
    var n := Soonest(notices, now).value;
    PrefixUnits();
    SlideIdMatches(P.MEETING, n.meetingId, hash);
    Shortened(n.place, C.PLACE);
    OptionalShortened(n.digitalParticipation, C.DIGITAL_PARTICIPATION);
    AgendaValid(n.agenda);
    WrittenInstant(n.startsAt.value);
  }

  ghost predicate WholeSeconds(s: seq<Interval>) {
    forall i :: 0 <= i < |s| ==> s[i].start % SECOND == 0 && s[i].end % SECOND == 0
  }

  lemma {:induction false} MergedWholeSeconds(s: seq<Interval>)
    requires WholeSeconds(s)
    ensures WholeSeconds(Merged(s))
  {
    if s != [] {
      MergedWholeSeconds(s[..|s| - 1]);
    }
  }

  lemma ClipWholeSeconds(b: Booking, id: Text, from: int, to: int, now: int)
    requires from % SECOND == 0 && to % SECOND == 0
    ensures var y := Clip(b, id, from, to, now);
            y.Some? ==> y.value.start % SECOND == 0 && y.value.end % SECOND == 0
  {
    hide FloorToSecond, CeilToSecond;
    if b.start.Some? {
      SecondShape(b.start.value);
    }
    if b.end.Some? {
      CeilShape(b.end.value);
    }
  }

  lemma CeilShape(x: int)
    ensures CeilToSecond(x) % SECOND == 0
  {
  }

  lemma BusyWholeSeconds(id: Text, bookings: seq<Booking>, from: int, to: int, now: int)
    requires from % SECOND == 0 && to % SECOND == 0
    ensures WholeSeconds(BusyOf(id, bookings, from, to, now))
  {
    hide Clipped, Merged, Sort, Earlier, Clip;
    var c := Clipped(bookings, id, from, to, now);
    ClippedMeaning(bookings, id, from, to, now);
    forall i | 0 <= i < |c| ensures c[i].start % SECOND == 0 && c[i].end % SECOND == 0 {
      assert c[i] in c;
      var k :| 0 <= k < |bookings| && Clip(bookings[k], id, from, to, now) == Some(c[i]);
      ClipWholeSeconds(bookings[k], id, from, to, now);
    }
    EarlierIsOrder();
    SortMeaning(c, Earlier);
    var sorted := Sort(c, Earlier);
    forall i | 0 <= i < |sorted| ensures sorted[i].start % SECOND == 0 && sorted[i].end % SECOND == 0 {
      assert sorted[i] in c;
    }
    MergedWholeSeconds(sorted);
  }

  /** Merged intervals inside a window that can be written are written, in whole seconds, as they are. */
  lemma IntervalsWritten(busy: seq<Interval>, from: int, to: int)
    requires Separated(busy) && Inside(busy, from, to) && WholeSeconds(busy) && InYears(from) && InYears(to)
    ensures forall i :: 0 <= i < |busy| ==> C.ValidInterval(IntervalsText(busy)[i])
    ensures forall i ::
              0 <= i < |busy|
              ==> TimeOf(IntervalsText(busy)[i].start) == busy[i].start
                  && TimeOf(IntervalsText(busy)[i].end) == busy[i].end
  {
    hide IsInstant, ToInstant, TimeOf;
    forall i | 0 <= i < |busy|
      ensures C.ValidInterval(IntervalsText(busy)[i])
      ensures TimeOf(IntervalsText(busy)[i].start) == busy[i].start && TimeOf(IntervalsText(busy)[i].end) == busy[i].end
    {
      WrittenInstant(busy[i].start);
      WrittenInstant(busy[i].end);
    }
  }

  predicate SpanInYears(span: Span) {
    InYears(span.from) && InYears(span.to)
  }

  lemma WindowShape(a: AvailabilityInput, now: int)
    requires WindowOf(a, now).Some?
    ensures var w := WindowOf(a, now).value;
            && w.from % SECOND == 0 && w.to % SECOND == 0 && 0 < w.to - w.from <= C.AVAILABILITY_DAYS * DAY
            && w.to <= a.to.value
            && w.from % MINUTE == 0 && now < w.from + MINUTE
  {
    hide FloorToMinute, FloorToSecond;
    var from := FloorToMinute(Max(a.from.value, now));
    MinuteShape(Max(a.from.value, now));
    SecondShape(Min(a.to.value, from + C.AVAILABILITY_DAYS * DAY));
  }

  lemma SecondShape(x: int)
    ensures FloorToSecond(x) % SECOND == 0 && FloorToSecond(x) <= x < FloorToSecond(x) + SECOND
  {
  }

  lemma ResourceValid(r: ResourceInput, bookings: seq<Booking>, span: Span, now: int)
    requires r.mode.Some? && SpanInYears(span) && span.from % SECOND == 0 && span.to % SECOND == 0
    ensures C.ValidResource(ResourceOf(r, bookings, span, now))
  {
    hide InYears, ShortenText, Characters, BusyOf, C.ValidInterval;
    Shortened(r.name, C.RESOURCE_NAME);
    BusyOfMeaning(r.id, bookings, span.from, span.to, now);
    BusyWholeSeconds(r.id, bookings, span.from, span.to, now);
    IntervalsWritten(BusyOf(r.id, bookings, span.from, span.to, now), span.from, span.to);
  }

  lemma AvailabilitySlideValidIff(a: AvailabilityInput, now: int)
    requires AvailabilitySlide(a, now).Some?
    ensures C.ValidSlide(AvailabilitySlide(a, now).value) <==> SpanInYears(WindowOf(a, now).value)
  {
    hide InYears, IsInstant, ToInstant, TimeOf, WindowOf, ShownResources, ResourceOf, C.ValidResource, C.IsSlideId,
         J.Ascii;
    PrefixUnits();
    var span := WindowOf(a, now).value;
    WindowShape(a, now);
    WrittenInstant(span.from);
    WrittenInstant(span.to);
    if SpanInYears(span) {
      forall i | 0 <= i < |ShownResources(a.resources)|
        ensures C.ValidResource(ResourceOf(ShownResources(a.resources)[i], a.busy, span, now))
      {
        ResourceValid(ShownResources(a.resources)[i], a.busy, span, now);
      }
    }
  }

  // ---------- Builder and parser agree ----------

  /** Every time the slides are built from can be written as an instant. */
  ghost predicate TimesInYears(input: RotationInput, hash: Text -> Text) {
    && (input.news.Some? ==> NewsInYears(ShownNews(input.news.value, hash)))
    && (input.occurrences.Some? ==> EntriesInYears(Listed(input.occurrences.value, input.now)))
    && (input.notices.Some? && Soonest(input.notices.value, input.now).Some?
        ==> InYears(Soonest(input.notices.value, input.now).value.startsAt.value))
    && (input.availability.Some? && AvailabilitySlide(input.availability.value, input.now).Some?
        ==> SpanInYears(WindowOf(input.availability.value, input.now).value))
  }

  ghost predicate NewsInYears(items: seq<NewsItem>) {
    forall i :: 0 <= i < |items| && items[i].publishedAt.Some? ==> InYears(items[i].publishedAt.value)
  }

  ghost predicate EntriesInYears(entries: seq<Entry>) {
    forall i :: 0 <= i < |entries| ==> EntryInYears(entries[i])
  }

  ghost predicate AllValid(slides: seq<C.Slide>) {
    forall i :: 0 <= i < |slides| ==> C.ValidSlide(slides[i])
  }

  lemma AllValidAppend(a: seq<C.Slide>, b: seq<C.Slide>)
    ensures AllValid(a + b) <==> AllValid(a) && AllValid(b)
  {
    hide C.ValidSlide;
    var s := a + b;
    if AllValid(s) {
      forall i | 0 <= i < |a| ensures C.ValidSlide(a[i]) { assert s[i] == a[i]; }
      forall i | 0 <= i < |b| ensures C.ValidSlide(b[i]) { assert s[|a| + i] == b[i]; }
    }
  }

  lemma NewsPartValidIff(input: RotationInput, hash: Text -> Text)
    requires IsHash(hash) && input.news.Some?
    ensures AllValid(NewsPart(input, hash)) <==> NewsInYears(ShownNews(input.news.value, hash))
  {
    hide C.ValidSlide, NewsSlide, ShownNews, InYears;
    var shown := ShownNews(input.news.value, hash);
    var slides := NewsPart(input, hash);
    forall i | 0 <= i < |shown| ensures C.ValidSlide(slides[i]) <==> InYears(shown[i].publishedAt.value) {
      NewsSlideValidIff(shown[i], shown[i].publishedAt.value, input.pictures, hash);
      assert slides[i] == NewsSlide(shown[i], shown[i].publishedAt.value, input.pictures, hash);
    }
  }

  lemma EventsPartValidIff(input: RotationInput)
    requires input.occurrences.Some?
    ensures AllValid(EventsPart(input)) <==> EntriesInYears(Listed(input.occurrences.value, input.now))
  {
    hide C.ValidSlide, Listed, EntryInYears;
    if EventsSlide(input.occurrences.value, input.now).Some? {
      EventsSlideValidIff(input.occurrences.value, input.now);
      assert EventsPart(input)[0] == EventsSlide(input.occurrences.value, input.now).value;
    }
  }

  lemma PartsValidIff(input: RotationInput, hash: Text -> Text)
    requires IsHash(hash)
    ensures AllValid(NewsPart(input, hash)) && AllValid(EventsPart(input)) && AllValid(MeetingPart(input, hash))
            && AllValid(AvailabilityPart(input))
            <==> TimesInYears(input, hash)
  {
    hide C.ValidSlide, EventsSlide, MeetingSlide, AvailabilitySlide, NewsSlides, NewsInYears, EntriesInYears,
         SpanInYears, InYears, ShownNews, Listed, Soonest, WindowOf;
    if input.news.Some? { NewsPartValidIff(input, hash); }
    if input.occurrences.Some? { EventsPartValidIff(input); }
    if input.notices.Some? {
      MeetingSome(input.notices.value, input.now, hash);
      var slide := MeetingSlide(input.notices.value, input.now, hash);
      if slide.Some? {
        MeetingSlideValidIff(input.notices.value, input.now, hash);
        assert MeetingPart(input, hash)[0] == slide.value;
      }
    }
    if input.availability.Some? {
      var slide := AvailabilitySlide(input.availability.value, input.now);
      if slide.Some? {
        AvailabilitySlideValidIff(input.availability.value, input.now);
        assert AvailabilityPart(input)[0] == slide.value;
      }
    }
  }

  lemma MeetingSome(notices: seq<MeetingNotice>, now: int, hash: Text -> Text)
    ensures MeetingSlide(notices, now, hash).Some? <==> Soonest(notices, now).Some?
  {
  }

  lemma {:induction false} DatedDistinct(items: seq<NewsItem>, hash: Text -> Text)
    ensures forall i, j :: 0 <= i < j < |Dated(items, hash)| ==>
                             SlideId(P.NEWS, Dated(items, hash)[i].id, hash)
                             != SlideId(P.NEWS, Dated(items, hash)[j].id, hash)
  {
    hide SlideId;
    if items != [] {
      DatedDistinct(items[..|items| - 1], hash);
      var front, item := Dated(items[..|items| - 1], hash), items[|items| - 1];
      forall i | 0 <= i < |front| ensures SlideId(P.NEWS, front[i].id, hash) in NewsIds(front, hash) {
      }
    }
  }

  /**
   The ids of a rotation are distinct: among news items by the builder's own check, and between the kinds by their first
   letter.
   */
  lemma IdsDistinct(input: RotationInput, hash: Text -> Text)
    requires IsHash(hash)
    ensures C.UniqueIds(BuildRotation(input, hash)) && |BuildRotation(input, hash)| <= 13
  {
    hide EventsSlide, MeetingSlide, AvailabilitySlide, NewsSlides;
    var news, events, meeting, availability := NewsPart(input, hash), EventsPart(input), MeetingPart(input, hash),
        AvailabilityPart(input);
    NewsIdsDistinct(input, hash);
    OtherIds(input, hash);
    var all := BuildRotation(input, hash);
    forall i, j | 0 <= i < j < |all| ensures all[i].id != all[j].id {
      if j < |news| {
        assert all[i] == news[i] && all[j] == news[j];
      }
    }
  }

  lemma NewsIdsDistinct(input: RotationInput, hash: Text -> Text)
    requires IsHash(hash)
    ensures C.UniqueIds(NewsPart(input, hash)) && |NewsPart(input, hash)| <= NEWS_SLIDES
    ensures forall i ::
              0 <= i < |NewsPart(input, hash)|
              ==> NewsPart(input, hash)[i].id != [] && NewsPart(input, hash)[i].id[0] == 110
  {
    hide SlideId, Dated, FirstPicture, ShortenText, ShortenTexts, ToInstant, J.Ascii;
    PrefixUnits();
    if input.news.Some? {
      var items := input.news.value;
      DatedDistinct(items, hash);
      var shown := ShownNews(items, hash);
      forall i | 0 <= i < |shown|
        ensures NewsPart(input, hash)[i].id == SlideId(P.NEWS, shown[i].id, hash) != []
                && NewsPart(input, hash)[i].id[0] == 110
      {
        SlideIdMatches(P.NEWS, shown[i].id, hash);
      }
    }
  }

  lemma OtherIds(input: RotationInput, hash: Text -> Text)
    requires IsHash(hash)
    ensures |EventsPart(input)| <= 1 && |MeetingPart(input, hash)| <= 1 && |AvailabilityPart(input)| <= 1
    ensures forall s :: s in EventsPart(input) ==> s.id != [] && s.id[0] == 101
    ensures forall s :: s in MeetingPart(input, hash) ==> s.id != [] && s.id[0] == 109
    ensures forall s :: s in AvailabilityPart(input) ==> s.id != [] && s.id[0] == 97
  {
    hide SlideId, Listed, Soonest, WindowOf, ShownResources, ShortenText, OptionalText, AgendaOf, ToInstant,
         OccurrenceOf, ResourceOf, J.Ascii;
    PrefixUnits();
    if input.notices.Some? && Soonest(input.notices.value, input.now).Some? {
      SlideIdMatches(P.MEETING, Soonest(input.notices.value, input.now).value.meetingId, hash);
    }
  }

  /**
   The slides, put into a document, are all accepted and read back unchanged exactly when every time they are built from
   lies in the years 0 to 9999.
   */
  lemma BuildAcceptedIff(input: RotationInput, hash: Text -> Text)
    requires IsHash(hash)
    ensures P.RotationOf(J.MapJson(BuildRotation(input, hash), P.SlideJson).items) == BuildRotation(input, hash)
            <==> TimesInYears(input, hash)
    ensures |BuildRotation(input, hash)| <= C.ROTATION
  {
    hide NewsPart, EventsPart, MeetingPart, AvailabilityPart, TimesInYears, P.RotationOf, P.SlideJson, C.ValidSlide;
    var slides := BuildRotation(input, hash);
    IdsDistinct(input, hash);
    PartsValidIff(input, hash);
    AllValidAppend(NewsPart(input, hash), EventsPart(input));
    AllValidAppend(NewsPart(input, hash) + EventsPart(input), MeetingPart(input, hash));
    AllValidAppend(NewsPart(input, hash) + EventsPart(input) + MeetingPart(input, hash), AvailabilityPart(input));
    assert AllValid(slides) <==> TimesInYears(input, hash);
    if AllValid(slides) {
      P.RotationRoundTrip(slides);
    }
    P.RotationSound(J.MapJson(slides, P.SlideJson).items);
  }

  /** Every time handed over, and the time of the fetch, lie in the years 0 to 9999. */
  ghost predicate InputInYears(input: RotationInput) {
    && InYears(input.now)
    && (input.news.Some? ==> NewsInYears(input.news.value))
    && (input.occurrences.Some?
        ==> forall i :: 0 <= i < |input.occurrences.value| ==> OccurrenceInYears(input.occurrences.value[i]))
    && (input.notices.Some?
        ==> forall i :: 0 <= i < |input.notices.value| ==> TimeInYears(input.notices.value[i].startsAt))
    && (input.availability.Some?
        ==> TimeInYears(input.availability.value.from) && TimeInYears(input.availability.value.to))
  }

  predicate TimeInYears(time: Option<int>) {
    time.Some? ==> InYears(time.value)
  }

  predicate OccurrenceInYears(o: OccurrenceInput) {
    TimeInYears(o.startsAt) && TimeInYears(o.endsAt)
  }

  /** Of such an input every slide is accepted and read back unchanged. */
  lemma BuildAccepted(input: RotationInput, hash: Text -> Text)
    requires IsHash(hash) && InputInYears(input)
    ensures P.RotationOf(J.MapJson(BuildRotation(input, hash), P.SlideJson).items) == BuildRotation(input, hash)
  {
    hide BuildRotation, P.RotationOf, InYears, ShownNews, Listed, Soonest, WindowOf, AvailabilitySlide;
    BuildAcceptedIff(input, hash);
    if input.news.Some? {
      ShownInYears(input.news.value, hash);
    }
    if input.occurrences.Some? {
      ListedInYears(input.occurrences.value, input.now);
    }
    if input.notices.Some? {
      var k := SoonestMeaning(input.notices.value, input.now);
    }
    if input.availability.Some? && AvailabilitySlide(input.availability.value, input.now).Some? {
      WindowInYears(input.availability.value, input.now);
    }
  }

  lemma ShownInYears(items: seq<NewsItem>, hash: Text -> Text)
    requires NewsInYears(items)
    ensures NewsInYears(ShownNews(items, hash))
  {
    hide InYears;
    DatedMeaning(items, hash);
    hide Dated;
    forall i | 0 <= i < |ShownNews(items, hash)| ensures ShownNews(items, hash)[i] in items {
      assert ShownNews(items, hash)[i] in Dated(items, hash);
    }
  }

  lemma ListedInYears(occurrences: seq<OccurrenceInput>, now: int)
    requires forall i :: 0 <= i < |occurrences| ==> OccurrenceInYears(occurrences[i])
    ensures EntriesInYears(Listed(occurrences, now))
  {
    hide InYears, Listed;
    var ks := ListedMeaning(occurrences, now);
    forall i | 0 <= i < |Listed(occurrences, now)| ensures EntryInYears(Listed(occurrences, now)[i]) {
      assert IsEntryOf(occurrences[ks[i]], now, Listed(occurrences, now)[i]);
      assert OccurrenceInYears(occurrences[ks[i]]);
    }
  }

  lemma WindowInYears(a: AvailabilityInput, now: int)
    requires InYears(now) && TimeInYears(a.from) && TimeInYears(a.to) && AvailabilitySlide(a, now).Some?
    ensures SpanInYears(WindowOf(a, now).value)
  {
    hide FloorToMinute, FloorToSecond, InYears;
    WindowShape(a, now);
    var from := FloorToMinute(Max(a.from.value, now));
    FloorInYears(Max(a.from.value, now));
    BetweenInYears(from, WindowOf(a, now).value.to, a.to.value);
  }

  lemma FloorInYears(x: int)
    requires InYears(x)
    ensures InYears(FloorToMinute(x))
  {
    MinuteShape(x);
    var first := -EPOCH_DAY * 24 * 60;
    assert first * MINUTE == -EPOCH_DAY * DAY;
    assert x / MINUTE >= first;
  }

  lemma BetweenInYears(low: int, x: int, high: int)
    requires InYears(low) && InYears(high) && low <= x <= high
    ensures InYears(x)
  {
  }

  /** The first instant of the year 10000. */
  const YEAR_10000 := 253402300800000

  /** A fetch of one news item dated then. */
  const TOO_LATE := RotationInput(0, Some([NewsItem([], [], [], [], Some(YEAR_10000))]), None, None, None, map[])

  /** Its slide is one the parser refuses. */
  lemma YearTooLateRefused(hash: Text -> Text)
    requires IsHash(hash)
    ensures P.RotationOf(J.MapJson(BuildRotation(TOO_LATE, hash), P.SlideJson).items) != BuildRotation(TOO_LATE, hash)
  {
    hide BuildRotation, ShownNews, InYears, P.RotationOf;
    var item := TOO_LATE.news.value[0];
    OneItemShown(item, hash);
    YearTenThousand();
    assert !NewsInYears([item]) by {
      assert [item][0] == item;
    }
    BuildAcceptedIff(TOO_LATE, hash);
  }

  lemma OneItemShown(item: NewsItem, hash: Text -> Text)
    requires item.publishedAt.Some?
    ensures ShownNews([item], hash) == [item]
  {
    assert [item][..0] == [] && Dated([], hash) == [];
  }

  lemma YearTenThousand()
    ensures !InYears(YEAR_10000)
  {
    assert DaysBefore(10000) == 3652425;
  }

  // ---------- The window asked for ----------

  /** The availability window begins in the fetch's own minute and ends when tomorrow does. */
  lemma AvailabilityWindowEnds(now: int, zone: Z.Zone, change: int, before: int, after: int)
    requires Z.PlainMidnight(zone, Z.LocalDay(now, zone) + 2, change, before, after)
    ensures AvailabilityWindow(now, zone).start <= now < AvailabilityWindow(now, zone).start + MINUTE
            && AvailabilityWindow(now, zone).start % MINUTE == 0
    ensures forall t ::
              t >= now ==> (t < AvailabilityWindow(now, zone).end <==> Z.LocalDay(t, zone) <= Z.LocalDay(now, zone) + 1)
    ensures now < AvailabilityWindow(now, zone).end
  {
    MinuteShape(now);
    forall t ensures Z.LocalDay(t, zone) >= Z.LocalDay(now, zone) + 2 <==> t >= AvailabilityWindow(now, zone).end {
      Z.ReachedFromStart(Z.LocalDay(now, zone) + 2, zone, change, before, after, t);
    }
  }

  // ---------- What is chosen ----------

  lemma {:induction false} TextOrder(a: Text, b: Text, c: Text)
    ensures !TextLess(a, b) || !TextLess(b, a)
    ensures !TextLess(b, a) && !TextLess(c, b) ==> !TextLess(c, a)
    ensures !TextLess(a, b) && !TextLess(b, a) ==> a == b
  {
    if a != [] && b != [] && c != [] {
      TextOrder(a[1..], b[1..], c[1..]);
    } else if a != [] && b != [] {
      TextOrder(a[1..], b[1..], c);
    }
    if a != [] && b != [] && a[0] == b[0] && a[1..] == b[1..] {
      assert a == [a[0]] + a[1..] && b == [b[0]] + b[1..];
    }
  }

  lemma SoonerIsOrder()
    ensures IsOrder(Sooner)
  {
    forall a: Entry, b: Entry ensures Sooner(a, b) || Sooner(b, a) {
      TextOrder(a.occurrence.occurrenceId, b.occurrence.occurrenceId, []);
    }
    forall a: Entry, b: Entry, c: Entry | Sooner(a, b) && Sooner(b, c) ensures Sooner(a, c) {
      TextOrder(a.occurrence.occurrenceId, b.occurrence.occurrenceId, c.occurrence.occurrenceId);
    }
  }

  /** The entry of an occurrence that has not ended and begins within 31 days. */
  predicate IsEntryOf(o: OccurrenceInput, now: int, e: Entry) {
    && e.occurrence == o && o.startsAt == Some(e.startsAt) && o.endsAt == Some(e.endsAt)
    && e.endsAt > now && e.startsAt < now + 31 * DAY
  }

  /** An entry begins before another, or with it and has not the greater id. */
  ghost predicate NotAfter(a: Entry, b: Entry) {
    a.startsAt < b.startsAt
    || (a.startsAt == b.startsAt
        && !exists k: nat :: LessAt(b.occurrence.occurrenceId, a.occurrence.occurrenceId, k))
  }

  lemma SoonerIsNotAfter(a: Entry, b: Entry)
    ensures Sooner(a, b) <==> NotAfter(a, b)
  {
    TextLessMeaning(b.occurrence.occurrenceId, a.occurrence.occurrenceId);
  }

  /** The indexes of the occurrences that are coming. */
  function ComingAt(occurrences: seq<OccurrenceInput>, now: int): set<nat> {
    set k: nat | k < |occurrences| && IsComing(occurrences[k], now)
  }

  lemma {:induction false} ComingPicked(occurrences: seq<OccurrenceInput>, now: int) returns (cs: seq<nat>)
    ensures |cs| == |Coming(occurrences, now)| && AllOf(cs, |occurrences|, ComingAt(occurrences, now))
    ensures forall i ::
              0 <= i < |cs|
              ==> cs[i] < |occurrences| && IsEntryOf(occurrences[cs[i]], now, Coming(occurrences, now)[i])
  {
    if occurrences == [] {
      cs := [];
    } else {
      var n := |occurrences| - 1;
      var front := ComingPicked(occurrences[..n], now);
      cs := if IsComing(occurrences[n], now) then front + [n] else front;
      ComingOneMore(occurrences, now, front);
    }
  }

  lemma ComingOneMore(occurrences: seq<OccurrenceInput>, now: int, front: seq<nat>)
    requires occurrences != []
    requires AllOf(front, |occurrences| - 1, ComingAt(occurrences[..|occurrences| - 1], now))
    ensures var n := |occurrences| - 1;
            AllOf(if IsComing(occurrences[n], now) then front + [n] else front, |occurrences|,
                  ComingAt(occurrences, now))
  {
    hide IsComing;
    var n := |occurrences| - 1;
    assert forall k: nat :: k < n ==> occurrences[..n][k] == occurrences[k];
    assert AllOf(front, n, ComingAt(occurrences, now));
    assert forall i :: 0 <= i < |front| ==> front[i] in front;
    forall k: nat ensures k in front + [n] <==> k in front || k == n {
    }
  }

  /**
   An events slide lists occurrences that are coming, each by its own index, soonest first; and leaves one out only when
   it lists eight, none of which is after it.
   */
  ghost predicate ListsSoonest(occurrences: seq<OccurrenceInput>, now: int, listed: seq<Entry>, ks: seq<nat>) {
    && |listed| == |ks| <= 8 && (forall i, j :: 0 <= i < j < |ks| ==> ks[i] != ks[j])
    && (forall i :: 0 <= i < |ks| ==> ks[i] < |occurrences| && IsEntryOf(occurrences[ks[i]], now, listed[i]))
    && (forall i, j :: 0 <= i < j < |listed| ==> NotAfter(listed[i], listed[j]))
    && forall k: nat, e ::
         k < |occurrences| && IsEntryOf(occurrences[k], now, e) && k !in ks
         ==> |ks| == 8 && forall i :: 0 <= i < |listed| ==> NotAfter(listed[i], e)
  }

  lemma ListedMeaning(occurrences: seq<OccurrenceInput>, now: int) returns (ks: seq<nat>)
    ensures ListsSoonest(occurrences, now, Listed(occurrences, now), ks)
  {
    hide Coming, Sort, Sooner, NotAfter, IsComing;
    var coming, listed := Coming(occurrences, now), Listed(occurrences, now);
    var cs := ComingPicked(occurrences, now);
    SoonerIsOrder();
    SortMeaning(coming, Sooner);
    var ps := SortPermutes(coming, Sooner);
    var sorted := Sort(coming, Sooner);
    forall i | 0 <= i < |sorted|
      ensures ps[i] < |cs| && cs[ps[i]] < |occurrences| && IsEntryOf(occurrences[cs[ps[i]]], now, sorted[i])
    {
      assert ps[i] < |coming| && sorted[i] == coming[ps[i]];
    }
    ks := seq(|listed|, i requires 0 <= i < |listed| => cs[ps[i]]);
    assert forall i :: 0 <= i < |listed| ==> listed[i] == sorted[i] && ks[i] == cs[ps[i]];
    forall i | 0 <= i < |listed| ensures cs[ps[i]] in ks {
      assert ks[i] == cs[ps[i]];
    }
    forall i, j | 0 <= i < j < |ks| ensures ks[i] != ks[j] && NotAfter(listed[i], listed[j]) {
      assert ps[i] != ps[j];
      assert ps[i] < ps[j] ==> cs[ps[i]] < cs[ps[j]];
      assert ps[j] < ps[i] ==> cs[ps[j]] < cs[ps[i]];
      SoonerIsNotAfter(listed[i], listed[j]);
    }
    forall k: nat, e | k < |occurrences| && IsEntryOf(occurrences[k], now, e) && k !in ks
      ensures |ks| == 8 && forall i :: 0 <= i < |listed| ==> NotAfter(listed[i], e)
    {
      EntryComes(occurrences, now, k, e);
      assert k in cs;
      var m: nat :| m < |cs| && cs[m] == k;
      assert m in ps;
      var q :| 0 <= q < |ps| && ps[q] == m;
      assert sorted[q] == e;
      forall i | 0 <= i < |listed| ensures NotAfter(listed[i], e) {
        assert Sooner(sorted[i], sorted[q]);
        SoonerIsNotAfter(listed[i], e);
      }
    }
  }

  lemma EntryComes(occurrences: seq<OccurrenceInput>, now: int, k: nat, e: Entry)
    requires k < |occurrences| && IsEntryOf(occurrences[k], now, e)
    ensures k in ComingAt(occurrences, now)
  {
  }

  /** A notice has not begun, and none that has not is before it: begins sooner, or with it and has the lesser id. */
  ghost predicate IsSoonest(notices: seq<MeetingNotice>, now: int, k: nat) {
    && k < |notices| && notices[k].startsAt.Some? && notices[k].startsAt.value > now
    && forall i :: 0 <= i < |notices| && notices[i].startsAt.Some? && notices[i].startsAt.value > now ==>
                     || notices[k].startsAt.value < notices[i].startsAt.value
                     || (notices[k].startsAt.value == notices[i].startsAt.value
                         && (!exists m: nat :: LessAt(notices[i].meetingId, notices[k].meetingId, m))
                         && (notices[i].meetingId == notices[k].meetingId ==> k <= i))
  }

  ghost predicate AllBegun(notices: seq<MeetingNotice>, now: int) {
    forall i :: 0 <= i < |notices| && notices[i].startsAt.Some? ==> notices[i].startsAt.value <= now
  }

  predicate Leads(a: MeetingNotice, i: nat, b: MeetingNotice, j: nat)
    requires a.startsAt.Some? && b.startsAt.Some?
  {
    || a.startsAt.value < b.startsAt.value
    || (a.startsAt.value == b.startsAt.value && !TextLess(b.meetingId, a.meetingId)
        && (a.meetingId == b.meetingId ==> i <= j))
  }

  lemma LeadsOn(a: MeetingNotice, i: nat, b: MeetingNotice, j: nat, c: MeetingNotice, k: nat)
    requires a.startsAt.Some? && b.startsAt.Some? && c.startsAt.Some?
    ensures Leads(a, i, b, j) && Leads(b, j, c, k) ==> Leads(a, i, c, k)
    ensures Leads(a, i, a, i)
    ensures Before(a, b) ==> Leads(a, i, b, j)
    ensures !Before(a, b) && j <= i ==> Leads(b, j, a, i)
  {
    TextOrder(a.meetingId, b.meetingId, c.meetingId);
    TextOrder(a.meetingId, a.meetingId, a.meetingId);
  }

  lemma {:induction false} SoonestLeads(notices: seq<MeetingNotice>, now: int) returns (k: nat)
    ensures Soonest(notices, now).None? <==> AllBegun(notices, now)
    ensures Soonest(notices, now).Some? ==>
              && k < |notices| && Soonest(notices, now).value == notices[k]
              && forall i :: 0 <= i < |notices| && NotBegun(notices[i], now) ==> Leads(notices[k], k, notices[i], i)
  {
    hide Leads, Before;
    k := 0;
    if notices != [] {
      var front, n := notices[..|notices| - 1], notices[|notices| - 1];
      var f := SoonestLeads(front, now);
      assert notices == front + [n];
      var r := Soonest(notices, now);
      if r.Some? {
        var replaced := NotBegun(n, now) && (Soonest(front, now).None? || Before(n, front[f]));
        k := if replaced then |front| else f;
        forall i | 0 <= i < |notices| && NotBegun(notices[i], now) ensures Leads(notices[k], k, notices[i], i) {
          LeadsOn(notices[i], i, notices[i], i, notices[i], i);
          if Soonest(front, now).Some? && NotBegun(n, now) {
            LeadsOn(n, |front|, front[f], f, notices[i], i);
          }
        }
      }
    }
  }

  /** The meeting slide is of that notice, the first of equals; and there is none exactly when all have begun. */
  lemma SoonestMeaning(notices: seq<MeetingNotice>, now: int) returns (k: nat)
    ensures Soonest(notices, now).None? <==> AllBegun(notices, now)
    ensures Soonest(notices, now).Some?
            ==> k < |notices| && IsSoonest(notices, now, k) && Soonest(notices, now).value == notices[k]
  {
    k := SoonestLeads(notices, now);
    if Soonest(notices, now).Some? {
      hide Soonest;
      forall i | 0 <= i < |notices| && NotBegun(notices[i], now)
        ensures Leads(notices[k], k, notices[i], i)
                && (TextLess(notices[i].meetingId, notices[k].meetingId)
                    <==> exists m: nat :: LessAt(notices[i].meetingId, notices[k].meetingId, m))
      {
        TextLessMeaning(notices[i].meetingId, notices[k].meetingId);
      }
    }
  }

  // ---------- The loops ----------

  /** `newsSlides`. */
  method NewsSlidesLoop(items: seq<NewsItem>, pictures: map<Text, PictureFile>, hash: Text -> Text)
    returns (slides: seq<C.Slide>)
    ensures slides == NewsSlides(items, pictures, hash)
  {
    hide NewsSlide, SlideId;
    slides := [];
    var ids: set<Text> := {};
    ghost var dated: seq<NewsItem> := [];
    for i := 0 to |items|
      invariant dated == Dated(items[..i], hash) && |dated| == |slides| <= NEWS_SLIDES
      invariant forall k ::
                  0 <= k < |dated|
                  ==> dated[k].publishedAt.Some?
                      && slides[k] == NewsSlide(dated[k], dated[k].publishedAt.value, pictures, hash)
      invariant ids == NewsIds(dated, hash)
    {
      if |slides| == NEWS_SLIDES {
        DatedPrefix(items, i, hash);
        assert slides == NewsSlides(items, pictures, hash);
        return;
      }
      assert items[..i + 1][..i] == items[..i];
      var item := items[i];
      var id := SlideId(P.NEWS, item.id, hash);
      if item.publishedAt.None? || id in ids {
        continue;
      }
      NewsIdsAppend(dated, item, hash);
      ids := ids + {id};
      dated := dated + [item];
      slides := slides + [NewsSlide(item, item.publishedAt.value, pictures, hash)];
    }
    assert items[..|items|] == items;
  }

  lemma NewsIdsAppend(items: seq<NewsItem>, item: NewsItem, hash: Text -> Text)
    ensures NewsIds(items + [item], hash) == NewsIds(items, hash) + {SlideId(P.NEWS, item.id, hash)}
  {
    hide SlideId;
    var all := items + [item];
    assert all[|items|] == item;
    forall id | id in NewsIds(items, hash) ensures id in NewsIds(all, hash) {
      var i :| 0 <= i < |items| && SlideId(P.NEWS, items[i].id, hash) == id;
      assert all[i] == items[i];
    }
  }

  /**
   Every item that can be dated has its slide's id among those that get a slide or wait behind ten of them; nothing else
   does; the order is that of the items; and adding items changes nothing of what came before.
   */
  lemma {:induction false} DatedMeaning(items: seq<NewsItem>, hash: Text -> Text)
    ensures forall i ::
              0 <= i < |items| && items[i].publishedAt.Some?
              ==> SlideId(P.NEWS, items[i].id, hash) in NewsIds(Dated(items, hash), hash)
    ensures forall x :: x in Dated(items, hash) ==> x in items
    ensures forall n :: 0 <= n <= |items| ==> Dated(items[..n], hash) <= Dated(items, hash)
    ensures forall i, j :: 0 <= i < j < |Dated(items, hash)| ==>
                             SlideId(P.NEWS, Dated(items, hash)[i].id, hash)
                             != SlideId(P.NEWS, Dated(items, hash)[j].id, hash)
  {
    hide SlideId, NewsIds;
    DatedDistinct(items, hash);
    forall n | 0 <= n <= |items| ensures Dated(items[..n], hash) <= Dated(items, hash) {
      DatedPrefix(items, n, hash);
    }
    if items != [] {
      var front, item := items[..|items| - 1], items[|items| - 1];
      DatedMeaning(front, hash);
      NewsIdsAppend(Dated(front, hash), item, hash);
    }
  }

  lemma {:induction false} DatedPrefix(items: seq<NewsItem>, n: nat, hash: Text -> Text)
    requires n <= |items|
    ensures Dated(items[..n], hash) <= Dated(items, hash)
    decreases |items| - n
  {
    hide SlideId;
    if n == |items| {
      assert items[..n] == items;
    } else {
      DatedPrefix(items, n + 1, hash);
      assert items[..n + 1][..n] == items[..n];
    }
  }

  /** The loop of `meetingSlide`. */
  method SoonestLoop(notices: seq<MeetingNotice>, now: int) returns (soonest: Option<MeetingNotice>)
    ensures soonest == Soonest(notices, now)
  {
    soonest := None;
    for i := 0 to |notices|
      invariant soonest == Soonest(notices[..i], now)
    {
      assert notices[..i + 1][..i] == notices[..i];
      var n := notices[i];
      if n.startsAt.None? || n.startsAt.value <= now {
        continue;
      }
      if soonest.None? || n.startsAt.value < soonest.value.startsAt.value
         || (n.startsAt.value == soonest.value.startsAt.value && TextLess(n.meetingId, soonest.value.meetingId)) {
        soonest := Some(n);
      }
    }
    assert notices[..|notices|] == notices;
  }
}
