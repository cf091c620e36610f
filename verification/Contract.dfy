/**
 Documents of version 1: the types and limits of packages/display/src/contract.ts, and what the limits
 say of a document. "Characters" are code points.
 */
module Contract {
  import opened Wrappers
  import opened Texts
  import opened Instants

  // ---------- Limits ----------

  const DOCUMENT_BYTES := 1024 * 1024
  const ROTATION := 100
  const SLIDE_SECONDS_MIN := 5
  const SLIDE_SECONDS_MAX := 120
  const REFRESH_SECONDS_MIN := 30
  const REFRESH_SECONDS_MAX := 60
  const SCHEDULE_WINDOWS := 14
  const TITLE := 200
  const PARAGRAPHS := 2000
  const DESCRIPTION := 500
  const LOCATION := 200
  const PLACE := 200
  const DIGITAL_PARTICIPATION := 500
  const AGENDA_ITEMS := 40
  const AGENDA_TITLE := 200
  const OCCURRENCES_MIN := 1
  const OCCURRENCES_MAX := 8
  const RESOURCES_MIN := 1
  const RESOURCES_MAX := 12
  const RESOURCE_NAME := 80
  const AVAILABILITY_DAYS := 7
  const ALT := 300
  const CAPTION := 200
  const ADDON_TEXT_BODY := 2000
  const TABLE_COLUMNS := 4
  const TABLE_ROWS := 60
  const DOORS := 120
  const MINUTES_IN_A_DAY := 24 * 60

  // ---------- The document ----------

  datatype Locale = Sv | En
  datatype Channel = Stable | Beta
  datatype Header = NoHeader | Clock
  datatype Theme = Light | Dark
  datatype Source = NewsSource | EventsSource | MeetingSource | AvailabilitySource | PictureSource | AddonSource
  datatype MeetingKind = Ordinary | Extraordinary
  datatype Mode = TimeSlots | WholeDay | DateRange

  datatype Layout = Layout(orientation: int, header: Header, theme: Theme)

  datatype Window = Window(days: seq<int>, from: Text, to: Text)

  datatype PictureRef = PictureRef(mediaFileId: Text, contentType: Text, byteSize: int, version: Text, alt: Text)

  datatype Occurrence = Occurrence(title: Text, description: Option<Text>, location: Option<Text>, startsAt: Text,
                                   endsAt: Text,
                                   calledOff: bool, placesLeft: Option<int>)

  datatype AgendaItem = AgendaItem(position: int, title: Text)

  datatype BusyInterval = BusyInterval(start: Text, end: Text)

  datatype Resource = Resource(name: Text, mode: Mode, slotMinutes: Option<int>, opensAtMinute: Option<int>,
                               closesAtMinute: Option<int>, busy: seq<BusyInterval>)

  datatype Door = Door(floor: Option<int>, apartment: Text, names: seq<Text>)

  datatype Body =
    | News(title: Text, paragraphs: seq<Text>, newsPicture: Option<PictureRef>, publishedAt: Text)
    | Events(occurrences: seq<Occurrence>)
    | Meeting(meetingKind: MeetingKind, startsAt: Text, place: Text, digitalParticipation: Option<Text>,
              agenda: seq<AgendaItem>)
    | Availability(from: Text, to: Text, resources: seq<Resource>)
    | Picture(picture: PictureRef, caption: Option<Text>)
    | AddonText(heading: Text, body: seq<Text>)
    | AddonTable(heading: Text, columns: seq<Text>, rows: seq<seq<Text>>)
    | AddonDoors(heading: Text, doors: seq<Door>)

  datatype Slide = Slide(id: Text, seconds: int, until: Option<Text>, source: Source, addon: Option<Text>, body: Body)

  datatype ScreenContent = ScreenContent(screenId: Text, generatedAt: Text, refreshSeconds: int, locale: Locale,
                                         timeZone: Text,
                                         releaseChannel: Channel, layout: Layout, schedule: seq<Window>,
                                         rotation: seq<Slide>)

  function SourceOf(body: Body): Source {
    match body
    case News(_, _, _, _) => NewsSource
    case Events(_) => EventsSource
    case Meeting(_, _, _, _, _) => MeetingSource
    case Availability(_, _, _) => AvailabilitySource
    case Picture(_, _) => PictureSource
    case _ => AddonSource
  }

  // ---------- What the limits say ----------

  predicate IsIdUnit(u: CodeUnit) {
    65 <= u <= 90 || 97 <= u <= 122 || 48 <= u <= 57 || u == 46 || u == 95 || u == 58 || u == 45
  }

  /** `SLIDE_ID_PATTERN`. */
  predicate IsSlideId(id: Text) {
    1 <= |id| <= 64 && forall i :: 0 <= i < |id| ==> IsIdUnit(id[i])
  }

  predicate Within(t: Text, max: int) {
    Characters(t) <= max
  }

  predicate WithinOrNone(t: Option<Text>, max: int) {
    t.Some? ==> Within(t.value, max)
  }

  predicate TogetherWithin(ts: seq<Text>, max: int) {
    TotalCharacters(ts) <= max
  }

  predicate IsMinutesOrNone(m: Option<int>) {
    m.Some? ==> 0 <= m.value <= MINUTES_IN_A_DAY
  }

  predicate ValidPicture(p: PictureRef) {
    p.mediaFileId != [] && p.byteSize >= 0 && Within(p.alt, ALT)
  }

  predicate ValidOccurrence(o: Occurrence) {
    && Within(o.title, TITLE) && WithinOrNone(o.description, DESCRIPTION) && WithinOrNone(o.location, LOCATION)
    && IsInstant(o.startsAt) && IsInstant(o.endsAt) && (o.placesLeft.Some? ==> o.placesLeft.value >= 0)
  }

  predicate ValidAgendaItem(a: AgendaItem) {
    Within(a.title, AGENDA_TITLE)
  }

  predicate ValidInterval(b: BusyInterval) {
    IsInstant(b.start) && IsInstant(b.end) && TimeOf(b.start) < TimeOf(b.end)
  }

  predicate ValidResource(r: Resource) {
    && Within(r.name, RESOURCE_NAME)
    && IsMinutesOrNone(r.slotMinutes) && IsMinutesOrNone(r.opensAtMinute) && IsMinutesOrNone(r.closesAtMinute)
    && forall i :: 0 <= i < |r.busy| ==> ValidInterval(r.busy[i])
  }

  predicate ValidBody(b: Body) {
    match b
    case News(title, paragraphs, picture, publishedAt) =>
      && Within(title, TITLE) && TogetherWithin(paragraphs, PARAGRAPHS) && IsInstant(publishedAt)
      && (picture.Some? ==> ValidPicture(picture.value))
    case Events(occurrences) =>
      && OCCURRENCES_MIN <= |occurrences| <= OCCURRENCES_MAX
      && forall i :: 0 <= i < |occurrences| ==> ValidOccurrence(occurrences[i])
    case Meeting(_, startsAt, place, digitalParticipation, agenda) =>
      && IsInstant(startsAt) && Within(place, PLACE) && WithinOrNone(digitalParticipation, DIGITAL_PARTICIPATION)
      && |agenda| <= AGENDA_ITEMS && forall i :: 0 <= i < |agenda| ==> ValidAgendaItem(agenda[i])
    case Availability(from, to, resources) =>
      && IsInstant(from) && IsInstant(to) && 0 < TimeOf(to) - TimeOf(from) <= AVAILABILITY_DAYS * DAY
      && RESOURCES_MIN <= |resources| <= RESOURCES_MAX
      && forall i :: 0 <= i < |resources| ==> ValidResource(resources[i])
    case Picture(picture, caption) => ValidPicture(picture) && WithinOrNone(caption, CAPTION)
    case AddonText(_, body) => TogetherWithin(body, ADDON_TEXT_BODY)
    case AddonTable(_, columns, rows) =>
      && 1 <= |columns| <= TABLE_COLUMNS && |rows| <= TABLE_ROWS
      && forall i :: 0 <= i < |rows| ==> |rows[i]| == |columns|
    case AddonDoors(_, doors) => |doors| <= DOORS
  }

  predicate ValidSlide(s: Slide) {
    && IsSlideId(s.id) && SLIDE_SECONDS_MIN <= s.seconds <= SLIDE_SECONDS_MAX
    && (s.until.Some? ==> IsInstant(s.until.value))
    && s.source == SourceOf(s.body) && (s.addon.Some? <==> s.source == AddonSource)
    && (s.addon.Some? ==> s.addon.value != [])
    && ValidBody(s.body)
  }

  predicate IsDigitIn(u: CodeUnit, low: int, high: int) {
    48 + low <= u <= 48 + high
  }

  /** `LOCAL_TIME`: "00:00" to "23:59", and "24:00". */
  predicate IsLocalTime(t: Text) {
    && |t| == 5 && t[2] == COLON
    && (|| (&& ((IsDigitIn(t[0], 0, 1) && IsDigitIn(t[1], 0, 9)) || (t[0] == 50 && IsDigitIn(t[1], 0, 3)))
            && IsDigitIn(t[3], 0, 5) && IsDigitIn(t[4], 0, 9))
        || (t[0] == 50 && t[1] == 52 && t[3] == 48 && t[4] == 48))
  }

  /** A time of day, its hours and minutes in two digits each; midnight at the day's end is 24:00. */
  ghost predicate SpellsTime(t: Text, hours: int, minutes: int) {
    && 0 <= hours <= 24 && 0 <= minutes < 60 && (hours == 24 ==> minutes == 0)
    && t == Two(hours) + [COLON] + Two(minutes)
  }

  lemma LocalTimeIff(t: Text)
    ensures IsLocalTime(t) <==> exists hours, minutes :: SpellsTime(t, hours, minutes)
  {
    if IsLocalTime(t) {
      var hours, minutes := (t[0] - ZERO) * 10 + (t[1] - ZERO), (t[3] - ZERO) * 10 + (t[4] - ZERO);
      assert t == [t[0], t[1]] + [COLON] + [t[3], t[4]];
      assert SpellsTime(t, hours, minutes);
    }
  }

  predicate ValidWindow(w: Window) {
    && (forall i :: 0 <= i < |w.days| ==> 1 <= w.days[i] <= 7)
    && IsLocalTime(w.from) && IsLocalTime(w.to) && TextLess(w.from, w.to)
  }

  predicate ValidLayout(l: Layout) {
    l.orientation in {0, 90, 180, 270}
  }

  predicate UniqueIds(slides: seq<Slide>) {
    forall i, j :: 0 <= i < j < |slides| ==> slides[i].id != slides[j].id
  }

  /** A document within every limit the parser holds it to, with `zones` the time zones the runtime knows. */
  predicate ValidDocument(d: ScreenContent, zones: set<Text>) {
    && d.screenId != [] && IsInstant(d.generatedAt) && REFRESH_SECONDS_MIN <= d.refreshSeconds <= REFRESH_SECONDS_MAX
    && d.timeZone in zones && ValidLayout(d.layout)
    && |d.schedule| <= SCHEDULE_WINDOWS && (forall i :: 0 <= i < |d.schedule| ==> ValidWindow(d.schedule[i]))
    && |d.rotation| <= ROTATION && (forall i :: 0 <= i < |d.rotation| ==> ValidSlide(d.rotation[i]))
    && UniqueIds(d.rotation)
  }
}
