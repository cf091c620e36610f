/** The parser of packages/display/src/parse.ts: the player's rules for reading a document. */
module Parse {
  import opened Wrappers
  import opened Texts
  import opened Instants
  import C = Contract
  import opened Json

  datatype ParseError = VersionUnknown | DocumentInvalid

  // ---------- Words ----------

  const SV := Ascii("sv")
  const EN := Ascii("en")
  const STABLE := Ascii("stable")
  const BETA := Ascii("beta")
  const NONE := Ascii("none")
  const CLOCK := Ascii("clock")
  const LIGHT := Ascii("light")
  const DARK := Ascii("dark")
  const NEWS := Ascii("news")
  const EVENTS := Ascii("events")
  const MEETING := Ascii("meeting")
  const AVAILABILITY := Ascii("availability")
  const PICTURE := Ascii("picture")
  const ADDON := Ascii("addon")
  const TEXT := Ascii("text")
  const TABLE := Ascii("table")
  const DOORS := Ascii("doors")
  const ORDINARY := Ascii("ordinary")
  const EXTRAORDINARY := Ascii("extraordinary")
  const TIME_SLOTS := Ascii("timeSlots")
  const WHOLE_DAY := Ascii("wholeDay")
  const DATE_RANGE := Ascii("dateRange")

  /** Words of one choice differ: in length, or in the first code unit. */
  lemma WordsDiffer()
    ensures SV != EN && STABLE != BETA && NONE != CLOCK && LIGHT != DARK && ORDINARY != EXTRAORDINARY
    ensures TIME_SLOTS != WHOLE_DAY && TIME_SLOTS != DATE_RANGE && WHOLE_DAY != DATE_RANGE
    ensures NEWS != TEXT && MEETING != PICTURE && TABLE != DOORS && TABLE != ADDON && DOORS != ADDON
    ensures |NEWS| == |TEXT| == 4 && |TABLE| == |DOORS| == |ADDON| == 5 && |EVENTS| == 6 && |MEETING| == |PICTURE| == 7
            && |AVAILABILITY| == 12
  {
    assert SV[0] != EN[0] && NONE[0] != CLOCK[0] && LIGHT[0] != DARK[0];
    assert TIME_SLOTS[0] != WHOLE_DAY[0] && |DATE_RANGE| == 9;
    assert |TIME_SLOTS| == 9 && TIME_SLOTS[0] != DATE_RANGE[0];
    assert NEWS[0] != TEXT[0] && MEETING[0] != PICTURE[0] && TABLE[0] != DOORS[0] && TABLE[0] != ADDON[0]
           && DOORS[0] != ADDON[0];
  }

  function SourceText(s: C.Source): Text {
    match s
    case NewsSource => NEWS
    case EventsSource => EVENTS
    case MeetingSource => MEETING
    case AvailabilitySource => AVAILABILITY
    case PictureSource => PICTURE
    case AddonSource => ADDON
  }

  // ---------- Guards ----------

  predicate IsText(v: Json, max: int) {
    v.Str? && Characters(v.t) <= max
  }

  predicate IsTextOrNull(v: Json, max: int) {
    v.Null? || IsText(v, max)
  }

  function TextOrNull(v: Json): Option<Text> {
    if v.Str? then Some(v.t) else None
  }

  predicate IsInstantValue(v: Json) {
    v.Str? && IsInstant(v.t)
  }

  predicate IsCount(v: Json) {
    IntegerOf(v).Some? && IntegerOf(v).value >= 0
  }

  predicate IsMinutesOrNull(v: Json) {
    v.Null? || (IsCount(v) && IntegerOf(v).value <= C.MINUTES_IN_A_DAY)
  }

  predicate IsStringList(v: Json) {
    v.Arr? && forall i :: 0 <= i < |v.items| ==> v.items[i].Str?
  }

  function StringsOf(v: Json): (ts: seq<Text>)
    requires IsStringList(v)
    ensures |ts| == |v.items|
  {
    seq(|v.items|, i requires 0 <= i < |v.items| => v.items[i].t)
  }

  /** `isTextList`, with the sum its loop takes as a function. */
  predicate IsTextList(v: Json, max: int) {
    IsStringList(v) && TotalCharacters(StringsOf(v)) <= max
  }

  // ---------- Layout and schedule ----------

  function ParseLayout(v: Json): Option<C.Layout> {
    if !v.Obj? then None
    else
      var orientation := IntegerOf(Get(v, Orientation));
      var header, theme := Get(v, HeaderName), Get(v, ThemeName);
      if orientation.None? || orientation.value !in {0, 90, 180, 270} then None
      else if header != Str(NONE) && header != Str(CLOCK) then None
      else if theme != Str(LIGHT) && theme != Str(DARK) then None
      else Some(C.Layout(orientation.value, if header == Str(NONE) then C.NoHeader else C.Clock,
                         if theme == Str(LIGHT) then C.Light else C.Dark))
  }

  function ParseDay(v: Json): Option<int> {
    var day := IntegerOf(v);
    if day.Some? && 1 <= day.value <= 7 then day else None
  }

  function ParseWindow(v: Json): Option<C.Window> {
    if !v.Obj? then None
    else
      var days, from, to := Get(v, Days), Get(v, From), Get(v, To);
      if !days.Arr? then None
      else
        var parsed := AllOrNone(days.items, ParseDay);
        if parsed.None? then None
        else if !from.Str? || !to.Str? || !C.IsLocalTime(from.t) || !C.IsLocalTime(to.t) || !TextLess(from.t, to.t) then
               None
        else Some(C.Window(parsed.value, from.t, to.t))
  }

  function ParseSchedule(v: Json): Option<seq<C.Window>> {
    if !v.Obj? then None
    else
      var on := Get(v, On);
      if !on.Arr? || |on.items| > C.SCHEDULE_WINDOWS then None else AllOrNone(on.items, ParseWindow)
  }

  // ---------- Bodies ----------

  /** The picture, or nothing when it is not one. */
  function ParsePictureRef(v: Json): Option<C.PictureRef> {
    if !v.Obj? then None
    else
      var mediaFileId, contentType, byteSize := Get(v, MediaFileId), Get(v, ContentType), Get(v, ByteSize);
      var version, alt := Get(v, Version), Get(v, AltName);
      if !mediaFileId.Str? || mediaFileId.t == [] || !contentType.Str? || !IsCount(byteSize) || !version.Str?
      || !IsText(alt, C.ALT) then None
      else Some(C.PictureRef(mediaFileId.t, contentType.t, IntegerOf(byteSize).value, version.t, alt.t))
  }

  function ParseNews(v: Json): Option<C.Body>
    requires v.Obj?
  {
    var title, paragraphs, picture, publishedAt := Get(v, Title), Get(v, Paragraphs), Get(v, PictureName),
        Get(v, PublishedAt);
    if !IsText(title, C.TITLE) || !IsInstantValue(publishedAt) || !IsTextList(paragraphs, C.PARAGRAPHS) then None
    else if picture.Null? then Some(C.News(title.t, StringsOf(paragraphs), None, publishedAt.t))
    else
      var ref := ParsePictureRef(picture);
      if ref.None? then None else Some(C.News(title.t, StringsOf(paragraphs), ref, publishedAt.t))
  }

  function ParseOccurrence(v: Json): Option<C.Occurrence> {
    if !v.Obj? then None
    else
      var title, description, location := Get(v, Title), Get(v, Description), Get(v, Location);
      var startsAt, endsAt, calledOff, placesLeft := Get(v, StartsAt), Get(v, EndsAt), Get(v, CalledOff),
          Get(v, PlacesLeft);
      if || !IsText(title, C.TITLE) || !IsTextOrNull(description, C.DESCRIPTION) || !IsTextOrNull(location, C.LOCATION)
         || !IsInstantValue(startsAt) || !IsInstantValue(endsAt) || !calledOff.Bool?
            || !(placesLeft.Null? || IsCount(placesLeft)) then None
      else Some(C.Occurrence(title.t, TextOrNull(description), TextOrNull(location), startsAt.t, endsAt.t, calledOff.b,
                             if placesLeft.Null? then None else IntegerOf(placesLeft)))
  }

  /** What `parseEvents` reads. */
  function EventsOf(v: Json): Option<C.Body>
    requires v.Obj?
  {
    var list := Get(v, Occurrences);
    if !list.Arr? || |list.items| < C.OCCURRENCES_MIN || |list.items| > C.OCCURRENCES_MAX then None
    else
      var occurrences := AllOrNone(list.items, ParseOccurrence);
      if occurrences.None? then None else Some(C.Events(occurrences.value))
  }

  function ParseAgendaItem(v: Json): Option<C.AgendaItem> {
    if !v.Obj? then None
    else
      var position, title := IntegerOf(Get(v, Position)), Get(v, Title);
      if position.None? || !IsText(title, C.AGENDA_TITLE) then None else Some(C.AgendaItem(position.value, title.t))
  }

  /** What `parseMeeting` reads. */
  function MeetingOf(v: Json): Option<C.Body>
    requires v.Obj?
  {
    var kind, startsAt, place := Get(v, MeetingKindName), Get(v, StartsAt), Get(v, Place);
    var digital, agenda := Get(v, DigitalParticipation), Get(v, Agenda);
    if || (kind != Str(ORDINARY) && kind != Str(EXTRAORDINARY)) || !IsInstantValue(startsAt) || !IsText(place, C.PLACE)
       || !IsTextOrNull(digital, C.DIGITAL_PARTICIPATION) || !agenda.Arr? || |agenda.items| > C.AGENDA_ITEMS then None
    else
      var items := AllOrNone(agenda.items, ParseAgendaItem);
      if items.None? then None
      else Some(C.Meeting(if kind == Str(ORDINARY) then C.Ordinary else C.Extraordinary, startsAt.t, place.t,
                          TextOrNull(digital), items.value))
  }

  function ParseInterval(v: Json): Option<C.BusyInterval> {
    if !v.Obj? then None
    else
      var start, end := Get(v, Start), Get(v, End);
      if !IsInstantValue(start) || !IsInstantValue(end) || TimeOf(start.t) >= TimeOf(end.t) then None
      else Some(C.BusyInterval(start.t, end.t))
  }

  function ParseMode(v: Json): Option<C.Mode> {
    if v == Str(TIME_SLOTS) then Some(C.TimeSlots) else if v == Str(WHOLE_DAY) then Some(C.WholeDay)
    else if v == Str(DATE_RANGE) then Some(C.DateRange) else None
  }

  function MinutesOf(v: Json): Option<int> {
    if v.Null? then None else IntegerOf(v)
  }

  function ParseResource(v: Json): Option<C.Resource> {
    if !v.Obj? then None
    else
      var name, mode, busy := Get(v, NameName), ParseMode(Get(v, ModeName)), Get(v, Busy);
      var slot, opens, closes := Get(v, SlotMinutes), Get(v, OpensAtMinute), Get(v, ClosesAtMinute);
      if || !IsText(name, C.RESOURCE_NAME) || mode.None? || !IsMinutesOrNull(slot) || !IsMinutesOrNull(opens)
      || !IsMinutesOrNull(closes)
         || !busy.Arr? then None
      else
        var intervals := AllOrNone(busy.items, ParseInterval);
        if intervals.None? then None
        else Some(C.Resource(name.t, mode.value, MinutesOf(slot), MinutesOf(opens), MinutesOf(closes), intervals.value))
  }

  /** What `parseAvailability` reads. */
  function AvailabilityOf(v: Json): Option<C.Body>
    requires v.Obj?
  {
    var from, to, resources := Get(v, From), Get(v, To), Get(v, Resources);
    if !IsInstantValue(from) || !IsInstantValue(to) then None
    else
      var span := TimeOf(to.t) - TimeOf(from.t);
      if span <= 0 || span > C.AVAILABILITY_DAYS * DAY then None
      else if !resources.Arr? || |resources.items| < C.RESOURCES_MIN || |resources.items| > C.RESOURCES_MAX then None
      else
        var parsed := AllOrNone(resources.items, ParseResource);
        if parsed.None? then None else Some(C.Availability(from.t, to.t, parsed.value))
  }

  function ParsePictureBody(v: Json): Option<C.Body>
    requires v.Obj?
  {
    var picture, caption := ParsePictureRef(Get(v, PictureName)), Get(v, Caption);
    if picture.None? || !IsTextOrNull(caption, C.CAPTION) then None
    else Some(C.Picture(picture.value, TextOrNull(caption)))
  }

  function ParseText(v: Json): Option<C.Body>
    requires v.Obj?
  {
    var heading, body := Get(v, Heading), Get(v, BodyName);
    if !heading.Str? || !IsTextList(body, C.ADDON_TEXT_BODY) then None
    else Some(C.AddonText(heading.t, StringsOf(body)))
  }

  function ParseRow(v: Json): Option<seq<Text>> {
    if IsStringList(v) then Some(StringsOf(v)) else None
  }

  function ParseTable(v: Json): Option<C.Body>
    requires v.Obj?
  {
    var heading, columns, rows := Get(v, Heading), Get(v, Columns), Get(v, Rows);
    if !heading.Str? || !IsStringList(columns) || |columns.items| == 0 || |columns.items| > C.TABLE_COLUMNS
    || !rows.Arr?
       || |rows.items| > C.TABLE_ROWS then None
    else
      var parsed := AllOrNone(rows.items, ParseRow);
      if parsed.None? || exists i :: 0 <= i < |parsed.value| && |parsed.value[i]| != |columns.items| then None
      else Some(C.AddonTable(heading.t, StringsOf(columns), parsed.value))
  }

  function ParseDoor(v: Json): Option<C.Door> {
    if !v.Obj? then None
    else
      var floor, apartment, names := Get(v, Floor), Get(v, Apartment), Get(v, Names);
      if !(floor.Null? || IntegerOf(floor).Some?) || !apartment.Str? || !IsStringList(names) then None
      else Some(C.Door(if floor.Null? then None else IntegerOf(floor), apartment.t, StringsOf(names)))
  }

  /** What `parseDoors` reads. */
  function DoorsOf(v: Json): Option<C.Body>
    requires v.Obj?
  {
    var heading, doors := Get(v, Heading), Get(v, DoorsName);
    if !heading.Str? || !doors.Arr? || |doors.items| > C.DOORS then None
    else
      var parsed := AllOrNone(doors.items, ParseDoor);
      if parsed.None? then None else Some(C.AddonDoors(heading.t, parsed.value))
  }

  function ParseBody(v: Json): Option<C.Body> {
    if !v.Obj? then None
    else
      var kind := Get(v, Kind);
      if kind == Str(NEWS) then ParseNews(v)
      else if kind == Str(EVENTS) then EventsOf(v)
      else if kind == Str(MEETING) then MeetingOf(v)
      else if kind == Str(AVAILABILITY) then AvailabilityOf(v)
      else if kind == Str(PICTURE) then ParsePictureBody(v)
      else if kind == Str(TEXT) then ParseText(v)
      else if kind == Str(TABLE) then ParseTable(v)
      else if kind == Str(DOORS) then DoorsOf(v)
      else None
  }

  function ParseSlide(v: Json): Option<C.Slide> {
    if !v.Obj? then None
    else
      var id, seconds, until := Get(v, Id), IntegerOf(Get(v, Seconds)), Get(v, Until);
      var source, addon := Get(v, SourceName), Get(v, Addon);
      if !id.Str? || !C.IsSlideId(id.t) then None
      else if seconds.None? || seconds.value < C.SLIDE_SECONDS_MIN || seconds.value > C.SLIDE_SECONDS_MAX then None
      else if !until.Null? && !IsInstantValue(until) then None
      else
        var body := ParseBody(Get(v, BodyName));
        if body.None? then None
        else
          var sourceOfBody := C.SourceOf(body.value);
          if source != Str(SourceText(sourceOfBody)) then None
          else if sourceOfBody == C.AddonSource && (!addon.Str? || addon.t == []) then None
          else if sourceOfBody != C.AddonSource && !addon.Null? then None
          else Some(C.Slide(id.t, seconds.value, TextOrNull(until), sourceOfBody, TextOrNull(addon), body.value))
  }

  // ---------- The document ----------

  function Ids(slides: seq<C.Slide>): set<Text> {
    set i | 0 <= i < |slides| :: slides[i].id
  }

  /** The slides read, each the first with its id. */
  function RotationOf(items: seq<Json>): seq<C.Slide> {
    if items == [] then []
    else
      var front := RotationOf(items[..|items| - 1]);
      var slide := ParseSlide(items[|items| - 1]);
      if slide.Some? && slide.value.id !in Ids(front) then front + [slide.value] else front
  }

  function HeldSeconds(seconds: int): int {
    if seconds > C.REFRESH_SECONDS_MAX then C.REFRESH_SECONDS_MAX
    else if seconds < C.REFRESH_SECONDS_MIN then C.REFRESH_SECONDS_MIN else seconds
  }

  /** What `parseScreenContent` reads, `zones` being the time zones the runtime knows. */
  function DocumentOf(v: Json, zones: set<Text>): Result<C.ScreenContent, ParseError> {
    if !v.Obj? then Err(DocumentInvalid)
    else if IntegerOf(Get(v, Version)) != Some(1) then Err(VersionUnknown)
    else
      var screenId, generatedAt, refresh := Get(v, ScreenId), Get(v, GeneratedAt), Get(v, RefreshSeconds);
      var locale, timeZone, channel := Get(v, LocaleName), Get(v, TimeZone), Get(v, ReleaseChannel);
      var layout, schedule, rotation := ParseLayout(Get(v, LayoutName)), ParseSchedule(Get(v, Schedule)),
          Get(v, Rotation);
      if !screenId.Str? || screenId.t == [] then Err(DocumentInvalid)
      else if !IsInstantValue(generatedAt) then Err(DocumentInvalid)
      else if !refresh.Num? || !refresh.n.Finite? || refresh.n.value <= 0.0 then Err(DocumentInvalid)
      else if locale != Str(SV) && locale != Str(EN) then Err(DocumentInvalid)
      else if !timeZone.Str? || timeZone.t !in zones then Err(DocumentInvalid)
      else if channel != Str(STABLE) && channel != Str(BETA) then Err(DocumentInvalid)
      else if layout.None? || schedule.None? then Err(DocumentInvalid)
      else if !rotation.Arr? || |rotation.items| > C.ROTATION then Err(DocumentInvalid)
      else Ok(C.ScreenContent(screenId.t, generatedAt.t, HeldSeconds(Round(refresh.n.value)),
                              if locale == Str(SV) then C.Sv else C.En,
                              timeZone.t, if channel == Str(STABLE) then C.Stable else C.Beta, layout.value,
                              schedule.value,
                              RotationOf(rotation.items)))
  }

  // ---------- Writing ----------

  function OptionalText(t: Option<Text>): Json {
    if t.Some? then Str(t.value) else Null
  }

  function OptionalInt(i: Option<int>): Json {
    if i.Some? then Int(i.value) else Null
  }

  function TextJson(t: Text): Json {
    Str(t)
  }

  function TextsJson(ts: seq<Text>): Json {
    MapJson(ts, TextJson)
  }

  function LayoutJson(l: C.Layout): Json {
    Obj(map[Orientation := Int(l.orientation), HeaderName := Str(if l.header.NoHeader? then NONE else CLOCK),
            ThemeName := Str(if l.theme.Light? then LIGHT else DARK)])
  }

  function IntJson(i: int): Json {
    Int(i)
  }

  function WindowJson(w: C.Window): Json {
    Obj(map[Days := MapJson(w.days, IntJson), From := Str(w.from), To := Str(w.to)])
  }

  function PictureJson(p: C.PictureRef): Json {
    Obj(map[MediaFileId := Str(p.mediaFileId), ContentType := Str(p.contentType), ByteSize := Int(p.byteSize),
            Version := Str(p.version),
            AltName := Str(p.alt)])
  }

  function OccurrenceJson(o: C.Occurrence): Json {
    Obj(map[Title := Str(o.title), Description := OptionalText(o.description), Location := OptionalText(o.location),
            StartsAt := Str(o.startsAt), EndsAt := Str(o.endsAt), CalledOff := Bool(o.calledOff),
            PlacesLeft := OptionalInt(o.placesLeft)])
  }

  function AgendaJson(a: C.AgendaItem): Json {
    Obj(map[Position := Int(a.position), Title := Str(a.title)])
  }

  function IntervalJson(b: C.BusyInterval): Json {
    Obj(map[Start := Str(b.start), End := Str(b.end)])
  }

  function ModeText(m: C.Mode): Text {
    match m
    case TimeSlots => TIME_SLOTS
    case WholeDay => WHOLE_DAY
    case DateRange => DATE_RANGE
  }

  function ResourceJson(r: C.Resource): Json {
    Obj(map[NameName := Str(r.name), ModeName := Str(ModeText(r.mode)), SlotMinutes := OptionalInt(r.slotMinutes),
            OpensAtMinute := OptionalInt(r.opensAtMinute), ClosesAtMinute := OptionalInt(r.closesAtMinute),
            Busy := MapJson(r.busy, IntervalJson)])
  }

  function DoorJson(d: C.Door): Json {
    Obj(map[Floor := OptionalInt(d.floor), Apartment := Str(d.apartment), Names := TextsJson(d.names)])
  }

  function BodyJson(b: C.Body): Json {
    match b
    case News(title, paragraphs, picture, publishedAt) =>
      Obj(map[Kind := Str(NEWS), Title := Str(title), Paragraphs := TextsJson(paragraphs),
              PictureName := if picture.Some? then PictureJson(picture.value)
                             else Null, PublishedAt := Str(publishedAt)])
    case Events(occurrences) => Obj(map[Kind := Str(EVENTS), Occurrences := MapJson(occurrences, OccurrenceJson)])
    case Meeting(kind, startsAt, place, digital, agenda) =>
      Obj(map[Kind := Str(MEETING), MeetingKindName := Str(if kind.Ordinary? then ORDINARY else EXTRAORDINARY),
              StartsAt := Str(startsAt),
              Place := Str(place), DigitalParticipation := OptionalText(digital),
              Agenda := MapJson(agenda, AgendaJson)])
    case Availability(from, to, resources) =>
      Obj(map[Kind := Str(AVAILABILITY), From := Str(from), To := Str(to),
              Resources := MapJson(resources, ResourceJson)])
    case Picture(picture, caption) => Obj(map[Kind := Str(PICTURE), PictureName := PictureJson(picture),
                                              Caption := OptionalText(caption)])
    case AddonText(heading, body) => Obj(map[Kind := Str(TEXT), Heading := Str(heading), BodyName := TextsJson(body)])
    case AddonTable(heading, columns, rows) =>
      Obj(map[Kind := Str(TABLE), Heading := Str(heading), Columns := TextsJson(columns),
              Rows := MapJson(rows, TextsJson)])
    case AddonDoors(heading, doors) => Obj(map[Kind := Str(DOORS), Heading := Str(heading),
                                               DoorsName := MapJson(doors, DoorJson)])
  }

  function SlideJson(s: C.Slide): Json {
    Obj(map[Id := Str(s.id), Seconds := Int(s.seconds), Until := OptionalText(s.until),
            SourceName := Str(SourceText(s.source)),
            Addon := OptionalText(s.addon), BodyName := BodyJson(s.body)])
  }

  /** A document written out, as the cache holds it. */
  function DocumentJson(d: C.ScreenContent): Json {
    Obj(map[Version := Int(1), ScreenId := Str(d.screenId), GeneratedAt := Str(d.generatedAt),
            RefreshSeconds := Int(d.refreshSeconds),
            LocaleName := Str(if d.locale.Sv? then SV else EN), TimeZone := Str(d.timeZone),
            ReleaseChannel := Str(if d.releaseChannel.Stable? then STABLE else BETA),
            LayoutName := LayoutJson(d.layout),
            Schedule := Obj(map[On := MapJson(d.schedule, WindowJson)]), Rotation := MapJson(d.rotation, SlideJson)])
  }

  // ---------- Soundness ----------

  lemma WindowSound(v: Json)
    ensures ParseWindow(v).Some? ==> C.ValidWindow(ParseWindow(v).value)
  {
  }

  lemma ResourceSound(v: Json)
    ensures ParseResource(v).Some? ==> C.ValidResource(ParseResource(v).value)
  {
    hide IsInstant, TimeOf, Characters, TotalCharacters;
    if ParseResource(v).Some? {
      var r := ParseResource(v).value;
      forall i | 0 <= i < |r.busy| ensures C.ValidInterval(r.busy[i]) {
        assert ParseInterval(Get(v, Busy).items[i]) == Some(r.busy[i]);
      }
    }
  }

  lemma EventsSound(v: Json)
    requires v.Obj?
    ensures EventsOf(v).Some? ==> C.ValidBody(EventsOf(v).value)
  {
    hide IsInstant, TimeOf, Characters, TotalCharacters;
  }

  lemma AvailabilitySound(v: Json)
    requires v.Obj?
    ensures AvailabilityOf(v).Some? ==> C.ValidBody(AvailabilityOf(v).value)
  {
    hide IsInstant, TimeOf, Characters, TotalCharacters;
    if AvailabilityOf(v).Some? {
      var items := Get(v, Resources).items;
      forall i | 0 <= i < |items|
        ensures ParseResource(items[i]).Some? ==> C.ValidResource(ParseResource(items[i]).value)
      {
        ResourceSound(items[i]);
      }
    }
  }

  lemma ShortBodiesSound(v: Json)
    requires v.Obj?
    ensures ParseNews(v).Some? ==> C.ValidBody(ParseNews(v).value)
    ensures MeetingOf(v).Some? ==> C.ValidBody(MeetingOf(v).value)
    ensures ParsePictureBody(v).Some? ==> C.ValidBody(ParsePictureBody(v).value)
  {
    hide IsInstant, Characters, TotalCharacters;
  }

  lemma AddonBodiesSound(v: Json)
    requires v.Obj?
    ensures ParseText(v).Some? ==> C.ValidBody(ParseText(v).value)
    ensures ParseTable(v).Some? ==> C.ValidBody(ParseTable(v).value)
    ensures DoorsOf(v).Some? ==> C.ValidBody(DoorsOf(v).value)
  {
  }

  lemma BodySound(v: Json)
    ensures ParseBody(v).Some? ==> C.ValidBody(ParseBody(v).value)
  {
    hide ParseNews, EventsOf, MeetingOf, AvailabilityOf, ParsePictureBody, ParseText, ParseTable, DoorsOf, C.ValidBody;
    if v.Obj? {
      EventsSound(v);
      AvailabilitySound(v);
      ShortBodiesSound(v);
      AddonBodiesSound(v);
    }
  }

  /** A slide that is read is within every limit. */
  lemma SlideSound(v: Json)
    ensures ParseSlide(v).Some? ==> C.ValidSlide(ParseSlide(v).value)
  {
    hide ParseBody, C.ValidBody, IsInstant;
    if ParseSlide(v).Some? {
      BodySound(Get(v, BodyName));
    }
  }

  lemma {:induction false} RotationSound(items: seq<Json>)
    ensures |RotationOf(items)| <= |items| && C.UniqueIds(RotationOf(items))
    ensures forall i :: 0 <= i < |RotationOf(items)| ==> C.ValidSlide(RotationOf(items)[i])
  {
    hide ParseSlide, C.ValidSlide;
    if items != [] {
      RotationSound(items[..|items| - 1]);
      SlideSound(items[|items| - 1]);
    }
  }

  lemma ScheduleSound(v: Json)
    ensures ParseSchedule(v).Some? ==> |ParseSchedule(v).value| <= C.SCHEDULE_WINDOWS
    ensures ParseSchedule(v).Some?
            ==> forall i :: 0 <= i < |ParseSchedule(v).value| ==> C.ValidWindow(ParseSchedule(v).value[i])
  {
    hide ParseWindow, C.ValidWindow;
    if ParseSchedule(v).Some? {
      var on := Get(v, On).items;
      forall i | 0 <= i < |on| ensures ParseWindow(on[i]).Some? ==> C.ValidWindow(ParseWindow(on[i]).value) {
        WindowSound(on[i]);
      }
    }
  }

  lemma LayoutSound(v: Json)
    ensures ParseLayout(v).Some? ==> C.ValidLayout(ParseLayout(v).value)
  {
  }

  /** Every accepted document is within every limit, with no two slides of the same id. */
  lemma DocumentSound(v: Json, zones: set<Text>)
    ensures DocumentOf(v, zones).Ok? ==> C.ValidDocument(DocumentOf(v, zones).value, zones)
  {
    hide ParseSchedule, C.ValidWindow, C.ValidLayout, RotationOf, ParseLayout, IsInstant, C.ValidSlide;
    if DocumentOf(v, zones).Ok? {
      RotationSound(Get(v, Rotation).items);
      ScheduleSound(Get(v, Schedule));
      LayoutSound(Get(v, LayoutName));
    }
  }

  // ---------- Objects are open ----------

  /** The same value but for fields the contract does not name, at any depth. */
  ghost predicate SameNamed(v: Json, w: Json)
    decreases v
  {
    match v
    case Obj(fields) =>
      && w.Obj?
      && forall name: Name ::
           !name.Other? ==> && (name in fields <==> name in w.fields)
                            && (name in fields && name in w.fields ==> SameNamed(fields[name], w.fields[name]))
    case Arr(items) =>
      w.Arr? && |items| == |w.items| && forall i :: 0 <= i < |items| ==> SameNamed(items[i], w.items[i])
    case _ => v == w
  }

  lemma SameField(v: Json, w: Json, name: Name)
    requires SameNamed(v, w) && v.Obj? && !name.Other?
    ensures w.Obj? && SameNamed(Get(v, name), Get(w, name))
    ensures Get(v, name) == Get(w, name) || (Branches(Get(v, name)) && Branches(Get(w, name)))
    ensures (Get(v, name).Arr? <==> Get(w, name).Arr?)
            && (Get(v, name).Arr? ==> |Get(v, name).items| == |Get(w, name).items|)
    ensures Get(v, name).Null? <==> Get(w, name).Null?
  {
  }

  /** A value made of others. */
  predicate Branches(v: Json) {
    v.Obj? || v.Arr?
  }

  lemma SameKind(v: Json, w: Json)
    requires SameNamed(v, w)
    ensures (v.Obj? <==> w.Obj?) && (v.Arr? <==> w.Arr?) && (!v.Obj? && !v.Arr? ==> v == w)
    ensures v.Arr? ==> |v.items| == |w.items|
    ensures !w.Obj? && !w.Arr? ==> v == w
  {
  }

  lemma SameItem(v: Json, w: Json, i: nat)
    requires SameNamed(v, w) && v.Arr? && i < |v.items|
    ensures w.Arr? && i < |w.items| && SameNamed(v.items[i], w.items[i])
  {
  }

  lemma SameItems<A>(v: Json, w: Json, f: Json -> Option<A>)
    requires v.Arr? && w.Arr? && |v.items| == |w.items|
    requires forall i :: 0 <= i < |v.items| ==> f(v.items[i]) == f(w.items[i])
    ensures AllOrNone(v.items, f) == AllOrNone(w.items, f)
  {
    if AllOrNone(v.items, f).Some? {
      assert AllOrNone(v.items, f).value == AllOrNone(w.items, f).value;
    }
  }

  lemma SameStrings(v: Json, w: Json)
    requires SameNamed(v, w)
    ensures IsStringList(v) <==> IsStringList(w)
    ensures IsStringList(v) ==> StringsOf(v) == StringsOf(w) && |v.items| == |w.items|
    ensures forall max :: IsTextList(v, max) <==> IsTextList(w, max)
  {
    if v.Arr? {
      forall i | 0 <= i < |v.items| ensures v.items[i].Str? || w.items[i].Str? ==> v.items[i] == w.items[i] {
        SameKind(v.items[i], w.items[i]);
      }
      if IsStringList(v) {
        assert StringsOf(v) == StringsOf(w);
      }
    }
  }

  lemma SameLayoutLeaves(v: Json)
    requires v.Obj?
    ensures Branches(Get(v, Orientation)) || Branches(Get(v, HeaderName)) || Branches(Get(v, ThemeName))
            ==> ParseLayout(v).None?
  {
    hide Get;
  }

  lemma SameLayout(v: Json, w: Json)
    requires SameNamed(v, w)
    ensures ParseLayout(v) == ParseLayout(w)
  {
    hide SameNamed, Get, IntegerOf, IsText, IsTextOrNull, TextOrNull, IsInstantValue, IsCount, IsMinutesOrNull,
         MinutesOf, ParseMode, Branches;
    SameKind(v, w);
    if v.Obj? {
      SameField(v, w, Orientation);
      SameField(v, w, HeaderName);
      SameField(v, w, ThemeName);
      SameLayoutLeaves(v);
      SameLayoutLeaves(w);
    }
  }

  lemma SameDay(v: Json, w: Json)
    requires SameNamed(v, w)
    ensures ParseDay(v) == ParseDay(w)
  {
    hide SameNamed;
    SameKind(v, w);
  }

  lemma SameDayList(v: Json, w: Json)
    requires SameNamed(v, w)
    ensures v.Arr? ==> w.Arr? && AllOrNone(v.items, ParseDay) == AllOrNone(w.items, ParseDay)
  {
    hide SameNamed, ParseDay, AllOrNone;
    SameKind(v, w);
    if v.Arr? {
      forall i | 0 <= i < |v.items| ensures ParseDay(v.items[i]) == ParseDay(w.items[i]) {
        SameItem(v, w, i);
        SameDay(v.items[i], w.items[i]);
      }
      SameItems(v, w, ParseDay);
    }
  }

  lemma SameWindowLeaves(v: Json)
    requires v.Obj?
    ensures Branches(Get(v, From)) || Branches(Get(v, To))
            ==> ParseWindow(v).None?
  {
    hide Get, ParseDay, AllOrNone, C.IsLocalTime;
  }

  lemma SameWindow(v: Json, w: Json)
    requires SameNamed(v, w)
    ensures ParseWindow(v) == ParseWindow(w)
  {
    hide SameNamed, Get, IntegerOf, IsText, IsTextOrNull, TextOrNull, IsInstantValue, IsCount, IsMinutesOrNull,
         MinutesOf, ParseMode, Branches, ParseDay, AllOrNone, C.IsLocalTime;
    SameKind(v, w);
    if v.Obj? {
      SameField(v, w, From);
      SameField(v, w, To);
      SameField(v, w, Days);
      SameDayList(Get(v, Days), Get(w, Days));
      SameWindowLeaves(v);
      SameWindowLeaves(w);
    }
  }

  lemma SameWindowList(v: Json, w: Json)
    requires SameNamed(v, w)
    ensures v.Arr? ==> w.Arr? && AllOrNone(v.items, ParseWindow) == AllOrNone(w.items, ParseWindow)
  {
    hide SameNamed, ParseWindow, AllOrNone;
    SameKind(v, w);
    if v.Arr? {
      forall i | 0 <= i < |v.items| ensures ParseWindow(v.items[i]) == ParseWindow(w.items[i]) {
        SameItem(v, w, i);
        SameWindow(v.items[i], w.items[i]);
      }
      SameItems(v, w, ParseWindow);
    }
  }

  lemma SameSchedule(v: Json, w: Json)
    requires SameNamed(v, w)
    ensures ParseSchedule(v) == ParseSchedule(w)
  {
    hide SameNamed, Get, IntegerOf, IsText, IsTextOrNull, TextOrNull, IsInstantValue, IsCount, IsMinutesOrNull,
         MinutesOf, ParseMode, Branches, ParseWindow, AllOrNone;
    SameKind(v, w);
    if v.Obj? {
      SameField(v, w, On);
      SameWindowList(Get(v, On), Get(w, On));
    }
  }

  lemma SamePictureLeaves(v: Json)
    requires v.Obj?
    ensures Branches(Get(v, MediaFileId)) || Branches(Get(v, ContentType)) || Branches(Get(v, ByteSize)) ||
            Branches(Get(v, Version)) || Branches(Get(v, AltName))
            ==> ParsePictureRef(v).None?
  {
    hide Get, Characters;
  }

  lemma SamePicture(v: Json, w: Json)
    requires SameNamed(v, w)
    ensures ParsePictureRef(v) == ParsePictureRef(w)
  {
    hide SameNamed, Get, IntegerOf, IsText, IsTextOrNull, TextOrNull, IsInstantValue, IsCount, IsMinutesOrNull,
         MinutesOf, ParseMode, Branches;
    SameKind(v, w);
    if v.Obj? {
      SameField(v, w, MediaFileId);
      SameField(v, w, ContentType);
      SameField(v, w, ByteSize);
      SameField(v, w, Version);
      SameField(v, w, AltName);
      SamePictureLeaves(v);
      SamePictureLeaves(w);
    }
  }

  lemma SameNewsLeaves(v: Json)
    requires v.Obj?
    ensures Branches(Get(v, Title)) || Branches(Get(v, PublishedAt))
            ==> ParseNews(v).None?
  {
    hide Get, ParsePictureRef, IsTextList, StringsOf;
  }

  lemma SameNews(v: Json, w: Json)
    requires SameNamed(v, w) && v.Obj? && w.Obj?
    ensures ParseNews(v) == ParseNews(w)
  {
    hide SameNamed, Get, IntegerOf, IsText, IsTextOrNull, TextOrNull, IsInstantValue, IsCount, IsMinutesOrNull,
         MinutesOf, ParseMode, Branches, ParsePictureRef, IsTextList, StringsOf;
    SameField(v, w, Title);
    SameField(v, w, PublishedAt);
    SameField(v, w, Paragraphs);
    SameField(v, w, PictureName);
    SameStrings(Get(v, Paragraphs), Get(w, Paragraphs));
    SamePicture(Get(v, PictureName), Get(w, PictureName));
    TextLists(Get(v, Paragraphs));
    TextLists(Get(w, Paragraphs));
    SameNewsLeaves(v);
    SameNewsLeaves(w);
  }

  lemma SameOccurrenceLeaves(v: Json)
    requires v.Obj?
    ensures Branches(Get(v, Title)) || Branches(Get(v, Description)) || Branches(Get(v, Location)) ||
            Branches(Get(v, StartsAt)) || Branches(Get(v, EndsAt)) || Branches(Get(v, CalledOff)) ||
            Branches(Get(v, PlacesLeft))
            ==> ParseOccurrence(v).None?
  {
    hide Get, IsInstant, Characters;
  }

  lemma SameOccurrence(v: Json, w: Json)
    requires SameNamed(v, w)
    ensures ParseOccurrence(v) == ParseOccurrence(w)
  {
    hide SameNamed, Get, IntegerOf, IsText, IsTextOrNull, TextOrNull, IsInstantValue, IsCount, IsMinutesOrNull,
         MinutesOf, ParseMode, Branches;
    SameKind(v, w);
    if v.Obj? {
      SameField(v, w, Title);
      SameField(v, w, Description);
      SameField(v, w, Location);
      SameField(v, w, StartsAt);
      SameField(v, w, EndsAt);
      SameField(v, w, CalledOff);
      SameField(v, w, PlacesLeft);
      SameOccurrenceLeaves(v);
      SameOccurrenceLeaves(w);
    }
  }

  lemma SameOccurrenceList(v: Json, w: Json)
    requires SameNamed(v, w)
    ensures v.Arr? ==> w.Arr? && AllOrNone(v.items, ParseOccurrence) == AllOrNone(w.items, ParseOccurrence)
  {
    hide SameNamed, ParseOccurrence, AllOrNone;
    SameKind(v, w);
    if v.Arr? {
      forall i | 0 <= i < |v.items| ensures ParseOccurrence(v.items[i]) == ParseOccurrence(w.items[i]) {
        SameItem(v, w, i);
        SameOccurrence(v.items[i], w.items[i]);
      }
      SameItems(v, w, ParseOccurrence);
    }
  }

  lemma SameEvents(v: Json, w: Json)
    requires SameNamed(v, w) && v.Obj? && w.Obj?
    ensures EventsOf(v) == EventsOf(w)
  {
    hide SameNamed, Get, IntegerOf, IsText, IsTextOrNull, TextOrNull, IsInstantValue, IsCount, IsMinutesOrNull,
         MinutesOf, ParseMode, Branches, ParseOccurrence, AllOrNone;
    SameField(v, w, Occurrences);
    SameOccurrenceList(Get(v, Occurrences), Get(w, Occurrences));
  }

  lemma SameAgendaItemLeaves(v: Json)
    requires v.Obj?
    ensures Branches(Get(v, Position)) || Branches(Get(v, Title))
            ==> ParseAgendaItem(v).None?
  {
    hide Get, Characters;
  }

  lemma SameAgendaItem(v: Json, w: Json)
    requires SameNamed(v, w)
    ensures ParseAgendaItem(v) == ParseAgendaItem(w)
  {
    hide SameNamed, Get, IntegerOf, IsText, IsTextOrNull, TextOrNull, IsInstantValue, IsCount, IsMinutesOrNull,
         MinutesOf, ParseMode, Branches;
    SameKind(v, w);
    if v.Obj? {
      SameField(v, w, Position);
      SameField(v, w, Title);
      SameAgendaItemLeaves(v);
      SameAgendaItemLeaves(w);
    }
  }

  lemma SameAgendaItemList(v: Json, w: Json)
    requires SameNamed(v, w)
    ensures v.Arr? ==> w.Arr? && AllOrNone(v.items, ParseAgendaItem) == AllOrNone(w.items, ParseAgendaItem)
  {
    hide SameNamed, ParseAgendaItem, AllOrNone;
    SameKind(v, w);
    if v.Arr? {
      forall i | 0 <= i < |v.items| ensures ParseAgendaItem(v.items[i]) == ParseAgendaItem(w.items[i]) {
        SameItem(v, w, i);
        SameAgendaItem(v.items[i], w.items[i]);
      }
      SameItems(v, w, ParseAgendaItem);
    }
  }

  lemma SameMeetingLeaves(v: Json)
    requires v.Obj?
    ensures Branches(Get(v, MeetingKindName)) || Branches(Get(v, StartsAt)) || Branches(Get(v, Place)) ||
            Branches(Get(v, DigitalParticipation))
            ==> MeetingOf(v).None?
  {
    hide Get, IsInstant, Characters, AllOrNone, ParseAgendaItem;
  }

  lemma SameMeetingParts(v: Json, w: Json)
    requires v.Obj? && w.Obj? && Get(v, MeetingKindName) == Get(w, MeetingKindName)
             && Get(v, StartsAt) == Get(w, StartsAt) && Get(v, Place) == Get(w, Place)
             && Get(v, DigitalParticipation) == Get(w, DigitalParticipation)
    requires Get(v, Agenda).Arr? <==> Get(w, Agenda).Arr?
    requires Get(v, Agenda).Arr? ==>
               |Get(v, Agenda).items| == |Get(w, Agenda).items|
               && AllOrNone(Get(v, Agenda).items, ParseAgendaItem) == AllOrNone(Get(w, Agenda).items, ParseAgendaItem)
    ensures MeetingOf(v) == MeetingOf(w)
  {
    hide Get, IsText, IsTextOrNull, TextOrNull, IsInstantValue, ParseAgendaItem, AllOrNone, Ascii;
  }

  lemma SameMeeting(v: Json, w: Json)
    requires SameNamed(v, w) && v.Obj? && w.Obj?
    ensures MeetingOf(v) == MeetingOf(w)
  {
    hide SameNamed, Get, Branches, MeetingOf, ParseAgendaItem, AllOrNone;
    SameField(v, w, MeetingKindName);
    SameField(v, w, StartsAt);
    SameField(v, w, Place);
    SameField(v, w, DigitalParticipation);
    SameField(v, w, Agenda);
    SameAgendaItemList(Get(v, Agenda), Get(w, Agenda));
    SameMeetingLeaves(v);
    SameMeetingLeaves(w);
    if Get(v, MeetingKindName) == Get(w, MeetingKindName) && Get(v, StartsAt) == Get(w, StartsAt)
       && Get(v, Place) == Get(w, Place) && Get(v, DigitalParticipation) == Get(w, DigitalParticipation)
    {
      SameMeetingParts(v, w);
    }
  }

  lemma SameIntervalLeaves(v: Json)
    requires v.Obj?
    ensures Branches(Get(v, Start)) || Branches(Get(v, End))
            ==> ParseInterval(v).None?
  {
    hide Get, IsInstant, TimeOf;
  }

  lemma SameInterval(v: Json, w: Json)
    requires SameNamed(v, w)
    ensures ParseInterval(v) == ParseInterval(w)
  {
    hide SameNamed, Get, IntegerOf, IsText, IsTextOrNull, TextOrNull, IsInstantValue, IsCount, IsMinutesOrNull,
         MinutesOf, ParseMode, Branches;
    SameKind(v, w);
    if v.Obj? {
      SameField(v, w, Start);
      SameField(v, w, End);
      SameIntervalLeaves(v);
      SameIntervalLeaves(w);
    }
  }

  lemma SameIntervalList(v: Json, w: Json)
    requires SameNamed(v, w)
    ensures v.Arr? ==> w.Arr? && AllOrNone(v.items, ParseInterval) == AllOrNone(w.items, ParseInterval)
  {
    hide SameNamed, ParseInterval, AllOrNone;
    SameKind(v, w);
    if v.Arr? {
      forall i | 0 <= i < |v.items| ensures ParseInterval(v.items[i]) == ParseInterval(w.items[i]) {
        SameItem(v, w, i);
        SameInterval(v.items[i], w.items[i]);
      }
      SameItems(v, w, ParseInterval);
    }
  }

  lemma SameResourceLeaves(v: Json)
    requires v.Obj?
    ensures Branches(Get(v, NameName)) || Branches(Get(v, ModeName)) || Branches(Get(v, SlotMinutes)) ||
            Branches(Get(v, OpensAtMinute)) || Branches(Get(v, ClosesAtMinute))
            ==> ParseResource(v).None?
  {
    hide Get, Characters, AllOrNone, ParseInterval;
  }

  lemma SameResource(v: Json, w: Json)
    requires SameNamed(v, w)
    ensures ParseResource(v) == ParseResource(w)
  {
    hide SameNamed, Get, IntegerOf, IsText, IsTextOrNull, TextOrNull, IsInstantValue, IsCount, IsMinutesOrNull,
         MinutesOf, ParseMode, Branches, ParseInterval, AllOrNone;
    SameKind(v, w);
    if v.Obj? {
      SameField(v, w, NameName);
      SameField(v, w, ModeName);
      SameField(v, w, SlotMinutes);
      SameField(v, w, OpensAtMinute);
      SameField(v, w, ClosesAtMinute);
      SameField(v, w, Busy);
      SameIntervalList(Get(v, Busy), Get(w, Busy));
      SameResourceLeaves(v);
      SameResourceLeaves(w);
    }
  }

  lemma SameResourceList(v: Json, w: Json)
    requires SameNamed(v, w)
    ensures v.Arr? ==> w.Arr? && AllOrNone(v.items, ParseResource) == AllOrNone(w.items, ParseResource)
  {
    hide SameNamed, ParseResource, AllOrNone;
    SameKind(v, w);
    if v.Arr? {
      forall i | 0 <= i < |v.items| ensures ParseResource(v.items[i]) == ParseResource(w.items[i]) {
        SameItem(v, w, i);
        SameResource(v.items[i], w.items[i]);
      }
      SameItems(v, w, ParseResource);
    }
  }

  lemma SameAvailabilityLeaves(v: Json)
    requires v.Obj?
    ensures Branches(Get(v, From)) || Branches(Get(v, To))
            ==> AvailabilityOf(v).None?
  {
    hide Get, IsInstant, TimeOf, AllOrNone, ParseResource;
  }

  lemma SameAvailability(v: Json, w: Json)
    requires SameNamed(v, w) && v.Obj? && w.Obj?
    ensures AvailabilityOf(v) == AvailabilityOf(w)
  {
    hide SameNamed, Get, IntegerOf, IsText, IsTextOrNull, TextOrNull, IsInstantValue, IsCount, IsMinutesOrNull,
         MinutesOf, ParseMode, Branches, ParseResource, AllOrNone, TimeOf;
    SameField(v, w, From);
    SameField(v, w, To);
    SameField(v, w, Resources);
    SameResourceList(Get(v, Resources), Get(w, Resources));
    SameAvailabilityLeaves(v);
    SameAvailabilityLeaves(w);
  }

  lemma SamePictureBodyLeaves(v: Json)
    requires v.Obj?
    ensures Branches(Get(v, Caption))
            ==> ParsePictureBody(v).None?
  {
    hide Get, ParsePictureRef, Characters;
  }

  lemma SamePictureBody(v: Json, w: Json)
    requires SameNamed(v, w) && v.Obj? && w.Obj?
    ensures ParsePictureBody(v) == ParsePictureBody(w)
  {
    hide SameNamed, Get, IntegerOf, IsText, IsTextOrNull, TextOrNull, IsInstantValue, IsCount, IsMinutesOrNull,
         MinutesOf, ParseMode, Branches, ParsePictureRef;
    SameField(v, w, Caption);
    SameField(v, w, PictureName);
    SamePicture(Get(v, PictureName), Get(w, PictureName));
    SamePictureBodyLeaves(v);
    SamePictureBodyLeaves(w);
  }

  lemma SameTextLeaves(v: Json)
    requires v.Obj?
    ensures Branches(Get(v, Heading))
            ==> ParseText(v).None?
  {
    hide Get, IsTextList, StringsOf;
  }

  lemma SameText(v: Json, w: Json)
    requires SameNamed(v, w) && v.Obj? && w.Obj?
    ensures ParseText(v) == ParseText(w)
  {
    hide SameNamed, Get, IntegerOf, IsText, IsTextOrNull, TextOrNull, IsInstantValue, IsCount, IsMinutesOrNull,
         MinutesOf, ParseMode, Branches, IsTextList, StringsOf;
    SameField(v, w, Heading);
    SameField(v, w, BodyName);
    SameStrings(Get(v, BodyName), Get(w, BodyName));
    TextLists(Get(v, BodyName));
    TextLists(Get(w, BodyName));
    SameTextLeaves(v);
    SameTextLeaves(w);
  }

  lemma TextLists(v: Json)
    ensures forall max :: IsTextList(v, max) ==> IsStringList(v)
  {
  }

  lemma SameRow(v: Json, w: Json)
    requires SameNamed(v, w)
    ensures ParseRow(v) == ParseRow(w)
  {
    SameStrings(v, w);
  }

  lemma SameRowList(v: Json, w: Json)
    requires SameNamed(v, w)
    ensures v.Arr? ==> w.Arr? && AllOrNone(v.items, ParseRow) == AllOrNone(w.items, ParseRow)
  {
    hide SameNamed, ParseRow, AllOrNone;
    SameKind(v, w);
    if v.Arr? {
      forall i | 0 <= i < |v.items| ensures ParseRow(v.items[i]) == ParseRow(w.items[i]) {
        SameItem(v, w, i);
        SameRow(v.items[i], w.items[i]);
      }
      SameItems(v, w, ParseRow);
    }
  }

  lemma SameTableLeaves(v: Json)
    requires v.Obj?
    ensures Branches(Get(v, Heading))
            ==> ParseTable(v).None?
  {
    hide Get, ParseRow, AllOrNone, IsStringList, StringsOf;
  }

  lemma SameTable(v: Json, w: Json)
    requires SameNamed(v, w) && v.Obj? && w.Obj?
    ensures ParseTable(v) == ParseTable(w)
  {
    hide SameNamed, Get, IntegerOf, IsText, IsTextOrNull, TextOrNull, IsInstantValue, IsCount, IsMinutesOrNull,
         MinutesOf, ParseMode, Branches, ParseRow, AllOrNone, StringsOf;
    SameField(v, w, Heading);
    SameField(v, w, Columns);
    SameField(v, w, Rows);
    SameStrings(Get(v, Columns), Get(w, Columns));
    SameRowList(Get(v, Rows), Get(w, Rows));
    SameTableLeaves(v);
    SameTableLeaves(w);
  }

  lemma SameDoorLeaves(v: Json)
    requires v.Obj?
    ensures Branches(Get(v, Floor)) || Branches(Get(v, Apartment))
            ==> ParseDoor(v).None?
  {
    hide Get, IsStringList, StringsOf;
  }

  lemma SameDoor(v: Json, w: Json)
    requires SameNamed(v, w)
    ensures ParseDoor(v) == ParseDoor(w)
  {
    hide SameNamed, Get, IntegerOf, IsText, IsTextOrNull, TextOrNull, IsInstantValue, IsCount, IsMinutesOrNull,
         MinutesOf, ParseMode, Branches, IsStringList, StringsOf;
    SameKind(v, w);
    if v.Obj? {
      SameField(v, w, Floor);
      SameField(v, w, Apartment);
      SameField(v, w, Names);
      SameStrings(Get(v, Names), Get(w, Names));
      SameDoorLeaves(v);
      SameDoorLeaves(w);
    }
  }

  lemma SameDoorList(v: Json, w: Json)
    requires SameNamed(v, w)
    ensures v.Arr? ==> w.Arr? && AllOrNone(v.items, ParseDoor) == AllOrNone(w.items, ParseDoor)
  {
    hide SameNamed, ParseDoor, AllOrNone;
    SameKind(v, w);
    if v.Arr? {
      forall i | 0 <= i < |v.items| ensures ParseDoor(v.items[i]) == ParseDoor(w.items[i]) {
        SameItem(v, w, i);
        SameDoor(v.items[i], w.items[i]);
      }
      SameItems(v, w, ParseDoor);
    }
  }

  lemma SameDoorsLeaves(v: Json)
    requires v.Obj?
    ensures Branches(Get(v, Heading))
            ==> DoorsOf(v).None?
  {
    hide Get, ParseDoor, AllOrNone;
  }

  lemma SameDoors(v: Json, w: Json)
    requires SameNamed(v, w) && v.Obj? && w.Obj?
    ensures DoorsOf(v) == DoorsOf(w)
  {
    hide SameNamed, Get, IntegerOf, IsText, IsTextOrNull, TextOrNull, IsInstantValue, IsCount, IsMinutesOrNull,
         MinutesOf, ParseMode, Branches, ParseDoor, AllOrNone;
    SameField(v, w, Heading);
    SameField(v, w, DoorsName);
    SameDoorList(Get(v, DoorsName), Get(w, DoorsName));
    SameDoorsLeaves(v);
    SameDoorsLeaves(w);
  }

  lemma SameBodyLeaves(v: Json)
    requires v.Obj?
    ensures Branches(Get(v, Kind))
            ==> ParseBody(v).None?
  {
    hide Get, ParseNews, EventsOf, MeetingOf, AvailabilityOf, ParsePictureBody, ParseText, ParseTable, DoorsOf, Ascii;
  }

  lemma SameBody(v: Json, w: Json)
    requires SameNamed(v, w)
    ensures ParseBody(v) == ParseBody(w)
  {
    hide SameNamed, Get, IntegerOf, IsText, IsTextOrNull, TextOrNull, IsInstantValue, IsCount, IsMinutesOrNull,
         MinutesOf, ParseMode, Branches, ParseNews, EventsOf, MeetingOf, AvailabilityOf, ParsePictureBody, ParseText,
         ParseTable, DoorsOf, Ascii;
    SameKind(v, w);
    if v.Obj? {
      SameField(v, w, Kind);
      SameNews(v, w);
      SameEvents(v, w);
      SameMeeting(v, w);
      SameAvailability(v, w);
      SamePictureBody(v, w);
      SameText(v, w);
      SameTable(v, w);
      SameDoors(v, w);
      SameBodyLeaves(v);
      SameBodyLeaves(w);
    }
  }

  lemma SameSlideLeaves(v: Json)
    requires v.Obj?
    ensures Branches(Get(v, Id)) || Branches(Get(v, Seconds)) || Branches(Get(v, Until)) ||
            Branches(Get(v, SourceName)) || Branches(Get(v, Addon))
            ==> ParseSlide(v).None?
  {
    hide Get, ParseBody, C.IsSlideId, IsInstant, Ascii;
  }

  lemma SameSlide(v: Json, w: Json)
    requires SameNamed(v, w)
    ensures ParseSlide(v) == ParseSlide(w)
  {
    hide SameNamed, Get, IntegerOf, IsText, IsTextOrNull, TextOrNull, IsInstantValue, IsCount, IsMinutesOrNull,
         MinutesOf, ParseMode, Branches, ParseBody, C.IsSlideId, Ascii;
    SameKind(v, w);
    if v.Obj? {
      SameField(v, w, Id);
      SameField(v, w, Seconds);
      SameField(v, w, Until);
      SameField(v, w, SourceName);
      SameField(v, w, Addon);
      SameField(v, w, BodyName);
      SameBody(Get(v, BodyName), Get(w, BodyName));
      SameSlideLeaves(v);
      SameSlideLeaves(w);
    }
  }

  lemma {:induction false} SameRotation(v: seq<Json>, w: seq<Json>)
    requires |v| == |w| && forall i :: 0 <= i < |v| ==> SameNamed(v[i], w[i])
    ensures RotationOf(v) == RotationOf(w)
  {
    hide SameNamed, ParseSlide;
    if v != [] {
      SameRotation(v[..|v| - 1], w[..|w| - 1]);
      SameSlide(v[|v| - 1], w[|w| - 1]);
    }
  }

  lemma DocumentLeaves(v: Json, zones: set<Text>)
    requires v.Obj?
    ensures Branches(Get(v, Version)) ==> DocumentOf(v, zones) == Err(VersionUnknown)
    ensures Branches(Get(v, ScreenId)) || Branches(Get(v, GeneratedAt)) || Branches(Get(v, RefreshSeconds))
            || Branches(Get(v, LocaleName)) || Branches(Get(v, TimeZone)) || Branches(Get(v, ReleaseChannel))
            ==> DocumentOf(v, zones).Err?
    ensures DocumentOf(v, zones).Err?
            ==> DocumentOf(v, zones).error
                == if IntegerOf(Get(v, Version)) != Some(1) then VersionUnknown else DocumentInvalid
  {
    hide Get, ParseLayout, ParseSchedule, RotationOf, IsInstant, Ascii;
  }

  lemma SameDocument(v: Json, w: Json, zones: set<Text>)
    requires v.Obj? && w.Obj? && Get(v, Version) == Get(w, Version) && Get(v, ScreenId) == Get(w, ScreenId)
             && Get(v, GeneratedAt) == Get(w, GeneratedAt) && Get(v, RefreshSeconds) == Get(w, RefreshSeconds)
             && Get(v, LocaleName) == Get(w, LocaleName) && Get(v, TimeZone) == Get(w, TimeZone)
             && Get(v, ReleaseChannel) == Get(w, ReleaseChannel)
    requires ParseLayout(Get(v, LayoutName)) == ParseLayout(Get(w, LayoutName))
             && ParseSchedule(Get(v, Schedule)) == ParseSchedule(Get(w, Schedule))
    requires (Get(v, Rotation).Arr? <==> Get(w, Rotation).Arr?)
             && (Get(v, Rotation).Arr? ==>
                   |Get(v, Rotation).items| == |Get(w, Rotation).items|
                   && RotationOf(Get(v, Rotation).items) == RotationOf(Get(w, Rotation).items))
    ensures DocumentOf(v, zones) == DocumentOf(w, zones)
  {
    hide Get, IsInstantValue, ParseLayout, ParseSchedule, RotationOf, Round, HeldSeconds, Ascii, IntegerOf;
  }

  /** A field the contract does not name, anywhere in a document, makes no difference to what is read. */
  lemma ObjectsAreOpen(v: Json, w: Json, zones: set<Text>)
    requires SameNamed(v, w)
    ensures DocumentOf(v, zones) == DocumentOf(w, zones)
  {
    hide SameNamed, Get, Branches, ParseLayout, ParseSchedule, RotationOf, DocumentOf, IntegerOf;
    SameKind(v, w);
    if v.Obj? {
      SameField(v, w, Version);
      SameField(v, w, ScreenId);
      SameField(v, w, GeneratedAt);
      SameField(v, w, RefreshSeconds);
      SameField(v, w, LocaleName);
      SameField(v, w, TimeZone);
      SameField(v, w, ReleaseChannel);
      SameField(v, w, LayoutName);
      SameField(v, w, Schedule);
      SameField(v, w, Rotation);
      SameLayout(Get(v, LayoutName), Get(w, LayoutName));
      SameSchedule(Get(v, Schedule), Get(w, Schedule));
      if Get(v, Rotation).Arr? {
        forall i | 0 <= i < |Get(v, Rotation).items|
          ensures SameNamed(Get(v, Rotation).items[i], Get(w, Rotation).items[i])
        {
          SameItem(Get(v, Rotation), Get(w, Rotation), i);
        }
        SameRotation(Get(v, Rotation).items, Get(w, Rotation).items);
      }
      DocumentLeaves(v, zones);
      DocumentLeaves(w, zones);
      NoInteger(Get(v, Version));
      NoInteger(Get(w, Version));
      if Get(v, Version) == Get(w, Version) && Get(v, ScreenId) == Get(w, ScreenId)
         && Get(v, GeneratedAt) == Get(w, GeneratedAt) && Get(v, RefreshSeconds) == Get(w, RefreshSeconds)
         && Get(v, LocaleName) == Get(w, LocaleName) && Get(v, TimeZone) == Get(w, TimeZone)
         && Get(v, ReleaseChannel) == Get(w, ReleaseChannel)
      {
        SameDocument(v, w, zones);
      }
    } else {
      NoDocument(v, zones);
      NoDocument(w, zones);
    }
  }

  lemma NoDocument(v: Json, zones: set<Text>)
    ensures !v.Obj? ==> DocumentOf(v, zones) == Err(DocumentInvalid)
  {
  }

  lemma NoInteger(v: Json)
    ensures Branches(v) ==> IntegerOf(v).None?
  {
  }

  /** The seconds read are those of the document, rounded and held to 30 to 60. */
  lemma RefreshHeld(v: Json, zones: set<Text>)
    requires DocumentOf(v, zones).Ok?
    ensures v.Obj? && Get(v, RefreshSeconds).Num? && Get(v, RefreshSeconds).n.Finite?
    ensures var r, x := DocumentOf(v, zones).value.refreshSeconds, Get(v, RefreshSeconds).n.value;
            && x > 0.0 && 30 <= r <= 60
            && (r > 30 ==> r as real - 0.5 <= x) && (r < 60 ==> x < r as real + 0.5)
  {
    hide ParseLayout, ParseSchedule, RotationOf, IsInstant, Ascii;
  }

  // ---------- Completeness: a document within the limits reads as itself ----------

  lemma TextsRoundTrip(ts: seq<Text>)
    ensures IsStringList(TextsJson(ts)) && StringsOf(TextsJson(ts)) == ts
  {
    var v := TextsJson(ts);
    assert forall i :: 0 <= i < |v.items| ==> v.items[i] == TextJson(ts[i]);
    assert StringsOf(v) == ts;
  }

  lemma LayoutFields(l: C.Layout)
    ensures var v := LayoutJson(l);
            && v.Obj? && Get(v, Orientation) == Int(l.orientation)
            && Get(v, HeaderName) == Str(if l.header.NoHeader? then NONE else CLOCK)
            && Get(v, ThemeName) == Str(if l.theme.Light? then LIGHT else DARK)
  {
    hide Ascii, Int;
  }

  lemma LayoutRoundTrip(l: C.Layout)
    requires C.ValidLayout(l)
    ensures ParseLayout(LayoutJson(l)) == Some(l)
  {
    hide LayoutJson, Get, Ascii, IntegerOf;
    LayoutFields(l);
    WordsDiffer();
  }

  lemma WindowRoundTrip(w: C.Window)
    requires C.ValidWindow(w)
    ensures ParseWindow(WindowJson(w)) == Some(w)
  {
    ListRoundTrip(w.days, ParseDay, IntJson);
  }

  lemma ScheduleRoundTrip(ws: seq<C.Window>)
    requires |ws| <= C.SCHEDULE_WINDOWS && forall i :: 0 <= i < |ws| ==> C.ValidWindow(ws[i])
    ensures ParseSchedule(Obj(map[On := MapJson(ws, WindowJson)])) == Some(ws)
  {
    forall i | 0 <= i < |ws| ensures ParseWindow(WindowJson(ws[i])) == Some(ws[i]) {
      WindowRoundTrip(ws[i]);
    }
    ListRoundTrip(ws, ParseWindow, WindowJson);
  }

  lemma PictureRoundTrip(p: C.PictureRef)
    requires C.ValidPicture(p)
    ensures ParsePictureRef(PictureJson(p)) == Some(p)
  {
    hide IsInstant, TimeOf, Characters, TotalCharacters;
  }

  lemma OccurrenceRoundTrip(o: C.Occurrence)
    requires C.ValidOccurrence(o)
    ensures ParseOccurrence(OccurrenceJson(o)) == Some(o)
  {
    hide IsInstant, TimeOf, Characters, TotalCharacters;
  }

  lemma AgendaRoundTrip(a: C.AgendaItem)
    requires C.ValidAgendaItem(a)
    ensures ParseAgendaItem(AgendaJson(a)) == Some(a)
  {
    hide IsInstant, TimeOf, Characters, TotalCharacters;
  }

  lemma IntervalRoundTrip(b: C.BusyInterval)
    requires C.ValidInterval(b)
    ensures ParseInterval(IntervalJson(b)) == Some(b)
  {
    hide IsInstant, TimeOf, Characters, TotalCharacters;
  }

  lemma ModeRoundTrip(m: C.Mode)
    ensures ParseMode(Str(ModeText(m))) == Some(m)
  {
    WordsDiffer();
  }

  lemma ResourceRoundTrip(r: C.Resource)
    requires C.ValidResource(r)
    ensures ParseResource(ResourceJson(r)) == Some(r)
  {
    hide IsInstant, TimeOf, Characters, TotalCharacters;
    ModeRoundTrip(r.mode);
    forall i | 0 <= i < |r.busy| ensures ParseInterval(IntervalJson(r.busy[i])) == Some(r.busy[i]) {
      IntervalRoundTrip(r.busy[i]);
    }
    ListRoundTrip(r.busy, ParseInterval, IntervalJson);
  }

  lemma DoorRoundTrip(d: C.Door)
    ensures ParseDoor(DoorJson(d)) == Some(d)
  {
    TextsRoundTrip(d.names);
  }

  lemma NewsRoundTrip(b: C.Body)
    requires b.News? && C.ValidBody(b)
    ensures ParseNews(BodyJson(b)) == Some(b)
  {
    hide IsInstant, TimeOf, Characters, TotalCharacters;
    TextsRoundTrip(b.paragraphs);
    if b.newsPicture.Some? {
      PictureRoundTrip(b.newsPicture.value);
    }
  }

  lemma EventsRoundTrip(b: C.Body)
    requires b.Events? && C.ValidBody(b)
    ensures EventsOf(BodyJson(b)) == Some(b)
  {
    hide IsInstant, TimeOf, Characters, TotalCharacters;
    forall i | 0 <= i < |b.occurrences|
      ensures ParseOccurrence(OccurrenceJson(b.occurrences[i])) == Some(b.occurrences[i])
    {
      OccurrenceRoundTrip(b.occurrences[i]);
    }
    ListRoundTrip(b.occurrences, ParseOccurrence, OccurrenceJson);
  }

  lemma MeetingFields(b: C.Body)
    requires b.Meeting?
    ensures var v := BodyJson(b);
            && v.Obj? && Get(v, MeetingKindName) == Str(if b.meetingKind.Ordinary? then ORDINARY else EXTRAORDINARY)
            && Get(v, StartsAt) == Str(b.startsAt) && Get(v, Place) == Str(b.place)
            && Get(v, DigitalParticipation) == OptionalText(b.digitalParticipation)
            && Get(v, Agenda) == MapJson(b.agenda, AgendaJson)
  {
    hide Ascii, MapJson;
  }

  lemma MeetingRoundTrip(b: C.Body)
    requires b.Meeting? && C.ValidBody(b)
    ensures MeetingOf(BodyJson(b)) == Some(b)
  {
    hide IsInstant, TimeOf, Characters, TotalCharacters, BodyJson, Get, Ascii, ParseAgendaItem, AgendaJson;
    WordsDiffer();
    MeetingFields(b);
    forall i | 0 <= i < |b.agenda| ensures ParseAgendaItem(AgendaJson(b.agenda[i])) == Some(b.agenda[i]) {
      AgendaRoundTrip(b.agenda[i]);
    }
    ListRoundTrip(b.agenda, ParseAgendaItem, AgendaJson);
  }

  lemma AvailabilityRoundTrip(b: C.Body)
    requires b.Availability? && C.ValidBody(b)
    ensures AvailabilityOf(BodyJson(b)) == Some(b)
  {
    hide IsInstant, TimeOf, Characters, TotalCharacters;
    forall i | 0 <= i < |b.resources| ensures ParseResource(ResourceJson(b.resources[i])) == Some(b.resources[i]) {
      ResourceRoundTrip(b.resources[i]);
    }
    ListRoundTrip(b.resources, ParseResource, ResourceJson);
  }

  lemma TableRoundTrip(b: C.Body)
    requires b.AddonTable? && C.ValidBody(b)
    ensures ParseTable(BodyJson(b)) == Some(b)
  {
    hide IsInstant, TimeOf, Characters, TotalCharacters;
    TextsRoundTrip(b.columns);
    forall i | 0 <= i < |b.rows| ensures ParseRow(TextsJson(b.rows[i])) == Some(b.rows[i]) {
      TextsRoundTrip(b.rows[i]);
    }
    ListRoundTrip(b.rows, ParseRow, TextsJson);
  }

  lemma DoorsRoundTrip(b: C.Body)
    requires b.AddonDoors? && C.ValidBody(b)
    ensures DoorsOf(BodyJson(b)) == Some(b)
  {
    forall i | 0 <= i < |b.doors| ensures ParseDoor(DoorJson(b.doors[i])) == Some(b.doors[i]) {
      DoorRoundTrip(b.doors[i]);
    }
    ListRoundTrip(b.doors, ParseDoor, DoorJson);
  }

  /** The kind decides what a body is read by. */
  lemma Dispatch(v: Json)
    requires v.Obj?
    ensures Get(v, Kind) == Str(NEWS) ==> ParseBody(v) == ParseNews(v)
    ensures Get(v, Kind) == Str(EVENTS) ==> ParseBody(v) == EventsOf(v)
    ensures Get(v, Kind) == Str(MEETING) ==> ParseBody(v) == MeetingOf(v)
    ensures Get(v, Kind) == Str(AVAILABILITY) ==> ParseBody(v) == AvailabilityOf(v)
    ensures Get(v, Kind) == Str(PICTURE) ==> ParseBody(v) == ParsePictureBody(v)
    ensures Get(v, Kind) == Str(TEXT) ==> ParseBody(v) == ParseText(v)
    ensures Get(v, Kind) == Str(TABLE) ==> ParseBody(v) == ParseTable(v)
    ensures Get(v, Kind) == Str(DOORS) ==> ParseBody(v) == DoorsOf(v)
  {
    hide Ascii, ParseNews, EventsOf, MeetingOf, AvailabilityOf, ParsePictureBody, ParseText, ParseTable, DoorsOf;
    WordsDiffer();
  }

  lemma PictureBodyRoundTrip(b: C.Body)
    requires b.Picture? && C.ValidBody(b)
    ensures ParsePictureBody(BodyJson(b)) == Some(b)
  {
    hide PictureJson, ParsePictureRef, Characters;
    PictureRoundTrip(b.picture);
  }

  lemma TextRoundTrip(b: C.Body)
    requires b.AddonText? && C.ValidBody(b)
    ensures ParseText(BodyJson(b)) == Some(b)
  {
    hide TotalCharacters;
    TextsRoundTrip(b.body);
  }

  lemma KindOfJson(b: C.Body)
    ensures BodyJson(b).Obj?
    ensures Get(BodyJson(b), Kind)
            == Str(if b.News? then NEWS else if b.Events? then EVENTS else if b.Meeting? then MEETING
                                          else if b.Availability? then AVAILABILITY else if b.Picture? then PICTURE
                                          else if b.AddonText? then TEXT else if b.AddonTable? then TABLE else DOORS)
  {
    hide Ascii;
  }

  lemma BodyRoundTrip(b: C.Body)
    requires C.ValidBody(b)
    ensures ParseBody(BodyJson(b)) == Some(b)
  {
    hide Ascii, ParseBody, BodyJson, ParseNews, EventsOf, MeetingOf, AvailabilityOf, ParsePictureBody, ParseText,
         ParseTable, DoorsOf, C.ValidBody;
    KindOfJson(b);
    Dispatch(BodyJson(b));
    if b.News? {
      NewsRoundTrip(b);
    } else if b.Events? {
      EventsRoundTrip(b);
    } else if b.Meeting? {
      MeetingRoundTrip(b);
    } else if b.Availability? {
      AvailabilityRoundTrip(b);
    } else if b.Picture? {
      PictureBodyRoundTrip(b);
    } else if b.AddonText? {
      TextRoundTrip(b);
    } else if b.AddonTable? {
      TableRoundTrip(b);
    } else {
      DoorsRoundTrip(b);
    }
  }

  /** A slide within the limits is accepted, and read back unchanged. */
  lemma SlideRoundTrip(s: C.Slide)
    requires C.ValidSlide(s)
    ensures ParseSlide(SlideJson(s)) == Some(s)
  {
    hide IsInstant, ParseBody, BodyJson, C.ValidBody, C.IsSlideId;
    BodyRoundTrip(s.body);
  }

  lemma {:induction false} RotationRoundTrip(slides: seq<C.Slide>)
    requires C.UniqueIds(slides) && forall i :: 0 <= i < |slides| ==> C.ValidSlide(slides[i])
    ensures RotationOf(MapJson(slides, SlideJson).items) == slides
  {
    hide ParseSlide, SlideJson, C.ValidSlide;
    var items := MapJson(slides, SlideJson).items;
    if slides != [] {
      var front, last := slides[..|slides| - 1], slides[|slides| - 1];
      RotationRoundTrip(front);
      assert items[..|items| - 1] == MapJson(front, SlideJson).items;
      SlideRoundTrip(last);
      assert slides == front + [last];
    }
  }

  lemma DocumentFields(d: C.ScreenContent)
    ensures var v := DocumentJson(d);
            && v.Obj? && Get(v, Version) == Int(1) && Get(v, ScreenId) == Str(d.screenId)
            && Get(v, GeneratedAt) == Str(d.generatedAt)
            && Get(v, RefreshSeconds) == Int(d.refreshSeconds)
            && Get(v, LocaleName) == Str(if d.locale.Sv? then SV else EN)
            && Get(v, TimeZone) == Str(d.timeZone)
            && Get(v, ReleaseChannel) == Str(if d.releaseChannel.Stable? then STABLE else BETA)
            && Get(v, LayoutName) == LayoutJson(d.layout)
            && Get(v, Schedule) == Obj(map[On := MapJson(d.schedule, WindowJson)])
            && Get(v, Rotation) == MapJson(d.rotation, SlideJson)
  {
    hide Ascii, LayoutJson, MapJson, Int;
  }

  lemma ValidReadsBack(d: C.ScreenContent, zones: set<Text>)
    requires C.ValidDocument(d, zones)
    ensures DocumentOf(DocumentJson(d), zones) == Ok(d)
  {
    hide Ascii, IsInstant, RotationOf, ParseLayout, ParseSchedule, LayoutJson, C.ValidLayout, C.ValidSlide,
         C.ValidWindow, Round, Get,
         DocumentJson, IntegerOf;
    WordsDiffer();
    DocumentFields(d);
    LayoutRoundTrip(d.layout);
    ScheduleRoundTrip(d.schedule);
    RotationRoundTrip(d.rotation);
    RoundInt(d.refreshSeconds);
  }

  /**
   A document is accepted unchanged exactly when it is within every limit: the limits are what the parser promises, no
   more and no less.
   */
  lemma ReadBackIff(d: C.ScreenContent, zones: set<Text>)
    ensures DocumentOf(DocumentJson(d), zones) == Ok(d) <==> C.ValidDocument(d, zones)
  {
    hide DocumentOf, DocumentJson, C.ValidDocument;
    DocumentSound(DocumentJson(d), zones);
    if C.ValidDocument(d, zones) {
      ValidReadsBack(d, zones);
    }
  }

  lemma RoundInt(i: int)
    ensures Round(i as real) == i
  {
  }

  /** Reading what was read again changes nothing. */
  lemma Idempotent(v: Json, zones: set<Text>)
    requires DocumentOf(v, zones).Ok?
    ensures DocumentOf(DocumentJson(DocumentOf(v, zones).value), zones) == DocumentOf(v, zones)
  {
    DocumentSound(v, zones);
    ReadBackIff(DocumentOf(v, zones).value, zones);
  }

  // ---------- One slide does not touch another ----------

  /** A slide that is refused, put anywhere in the rotation, changes nothing that is read. */
  lemma {:induction false} RefusedSlideIsSkipped(a: seq<Json>, x: Json, b: seq<Json>)
    requires ParseSlide(x).None?
    ensures RotationOf(a + [x] + b) == RotationOf(a + b)
    decreases |b|
  {
    hide ParseSlide;
    if b == [] {
      assert a + [x] + b == a + [x] && a + b == a;
      assert (a + [x])[..|a|] == a;
    } else {
      var front, last := b[..|b| - 1], b[|b| - 1];
      RefusedSlideIsSkipped(a, x, front);
      assert (a + [x] + b)[..|a + [x] + b| - 1] == a + [x] + front;
      assert (a + b)[..|a + b| - 1] == a + front;
    }
  }

  /** A slide with the id of one before it changes nothing that is read either. */
  lemma {:induction false} RepeatedSlideIsSkipped(a: seq<Json>, x: Json, b: seq<Json>)
    requires ParseSlide(x).Some? && ParseSlide(x).value.id in Ids(RotationOf(a))
    ensures RotationOf(a + [x] + b) == RotationOf(a + b)
    decreases |b|
  {
    hide ParseSlide;
    if b == [] {
      assert a + [x] + b == a + [x] && a + b == a;
      assert (a + [x])[..|a|] == a;
    } else {
      var front, last := b[..|b| - 1], b[|b| - 1];
      RepeatedSlideIsSkipped(a, x, front);
      assert (a + [x] + b)[..|a + [x] + b| - 1] == a + [x] + front;
      assert (a + b)[..|a + b| - 1] == a + front;
    }
  }

  /** The document with another rotation. */
  function WithRotation(v: Json, items: seq<Json>): Json
    requires v.Obj?
  {
    Obj(v.fields[Rotation := Arr(items)])
  }

  /** All the fields of a document but its rotation. */
  ghost predicate SameFields(one: Json, other: Json) {
    && one.Obj? && other.Obj? && Get(one, Version) == Get(other, Version) && Get(one, ScreenId) == Get(other, ScreenId)
    && Get(one, GeneratedAt) == Get(other, GeneratedAt) && Get(one, RefreshSeconds) == Get(other, RefreshSeconds)
    && Get(one, LocaleName) == Get(other, LocaleName) && Get(one, TimeZone) == Get(other, TimeZone)
    && Get(one, ReleaseChannel) == Get(other, ReleaseChannel) && Get(one, LayoutName) == Get(other, LayoutName)
    && Get(one, Schedule) == Get(other, Schedule)
  }

  lemma SameButRotation(one: Json, other: Json, zones: set<Text>)
    requires SameFields(one, other)
    requires Get(one, Rotation).Arr? && |Get(one, Rotation).items| <= C.ROTATION
    requires Get(other, Rotation).Arr? && |Get(other, Rotation).items| <= C.ROTATION
    requires RotationOf(Get(one, Rotation).items) == RotationOf(Get(other, Rotation).items)
    ensures DocumentOf(one, zones) == DocumentOf(other, zones)
  {
    hide RotationOf, ParseLayout, ParseSchedule, IsInstantValue, Ascii, HeldSeconds, Round, IntegerOf, Get;
  }

  lemma OnlyRotation(v: Json, items: seq<Json>, others: seq<Json>)
    requires v.Obj?
    ensures var one, other := WithRotation(v, items), WithRotation(v, others);
            && one.Obj? && other.Obj? && Get(one, Rotation) == Arr(items) && Get(other, Rotation) == Arr(others)
            && SameFields(one, other)
  {
  }

  /** Inserting a refused slide changes nothing in the document, so long as the rotation is within its 100. */
  lemma RefusedSlideInDocument(v: Json, a: seq<Json>, x: Json, b: seq<Json>, zones: set<Text>)
    requires v.Obj? && ParseSlide(x).None? && |a| + 1 + |b| <= C.ROTATION
    ensures DocumentOf(WithRotation(v, a + [x] + b), zones) == DocumentOf(WithRotation(v, a + b), zones)
  {
    hide ParseSlide, RotationOf, DocumentOf, Get, WithRotation, SameFields;
    RefusedSlideIsSkipped(a, x, b);
    OnlyRotation(v, a + [x] + b, a + b);
    SameButRotation(WithRotation(v, a + [x] + b), WithRotation(v, a + b), zones);
  }

  // ---------- The loops ----------

  /** `isTextList`. */
  method IsTextListLoop(v: Json, max: int) returns (r: bool)
    ensures r == IsTextList(v, max)
  {
    if !IsStringList(v) {
      return false;
    }
    var ts := StringsOf(v);
    var total := 0;
    for i := 0 to |ts|
      invariant total == TotalCharacters(ts[..i])
    {
      var count := CountCharacters(ts[i]);
      assert ts[..i + 1][..i] == ts[..i];
      total := total + count;
    }
    assert ts[..|ts|] == ts;
    return total <= max;
  }

  /** The loop every list of a body is read with: it gives up at the first item that cannot be read. */
  method ReadList<A>(items: seq<Json>, f: Json -> Option<A>) returns (r: Option<seq<A>>)
    ensures r == AllOrNone(items, f)
  {
    var parsed: seq<A> := [];
    for i := 0 to |items|
      invariant |parsed| == i
      invariant forall k :: 0 <= k < i ==> f(items[k]) == Some(parsed[k])
    {
      var item := f(items[i]);
      if item.None? {
        return None;
      }
      parsed := parsed + [item.value];
    }
    assert AllOrNone(items, f).value == parsed;
    return Some(parsed);
  }

  method ParseEvents(v: Json) returns (r: Option<C.Body>)
    requires v.Obj?
    ensures r == EventsOf(v)
  {
    var list := Get(v, Occurrences);
    if !list.Arr? || |list.items| < C.OCCURRENCES_MIN || |list.items| > C.OCCURRENCES_MAX {
      return None;
    }
    var occurrences := ReadList(list.items, ParseOccurrence);
    if occurrences.None? {
      return None;
    }
    return Some(C.Events(occurrences.value));
  }

  /** `parseScreenContent`: the first slide with an id is kept, in the order of the rotation. */
  method ParseRotation(items: seq<Json>) returns (slides: seq<C.Slide>)
    ensures slides == RotationOf(items)
  {
    slides := [];
    var ids: set<Text> := {};
    for i := 0 to |items|
      invariant slides == RotationOf(items[..i]) && ids == Ids(slides)
    {
      assert items[..i + 1][..i] == items[..i];
      var slide := ParseSlide(items[i]);
      if slide.Some? && slide.value.id !in ids {
        IdsAppend(slides, slide.value);
        ids := ids + {slide.value.id};
        slides := slides + [slide.value];
      }
    }
    assert items[..|items|] == items;
  }

  lemma IdsAppend(slides: seq<C.Slide>, s: C.Slide)
    ensures Ids(slides + [s]) == Ids(slides) + {s.id}
  {
    var all := slides + [s];
    assert all[|slides|] == s;
    assert forall i :: 0 <= i < |slides| ==> all[i] == slides[i];
    forall id | id in Ids(slides) ensures id in Ids(all) {
      var i :| 0 <= i < |slides| && slides[i].id == id;
      assert all[i].id == id;
    }
  }

  method ParseScreenContent(v: Json, zones: set<Text>) returns (r: Result<C.ScreenContent, ParseError>)
    ensures r == DocumentOf(v, zones)
  {
    if !v.Obj? {
      return Err(DocumentInvalid);
    }
    if IntegerOf(Get(v, Version)) != Some(1) {
      return Err(VersionUnknown);
    }
    var screenId, generatedAt, refresh := Get(v, ScreenId), Get(v, GeneratedAt), Get(v, RefreshSeconds);
    var locale, timeZone, channel := Get(v, LocaleName), Get(v, TimeZone), Get(v, ReleaseChannel);
    if !screenId.Str? || screenId.t == [] || !IsInstantValue(generatedAt) || !refresh.Num? || !refresh.n.Finite?
    || refresh.n.value <= 0.0
       || (locale != Str(SV) && locale != Str(EN)) || !timeZone.Str? || timeZone.t !in zones
       || (channel != Str(STABLE) && channel != Str(BETA)) {
      return Err(DocumentInvalid);
    }
    var layout, schedule, rotation := ParseLayout(Get(v, LayoutName)), ParseSchedule(Get(v, Schedule)),
        Get(v, Rotation);
    if layout.None? || schedule.None? || !rotation.Arr? || |rotation.items| > C.ROTATION {
      return Err(DocumentInvalid);
    }
    var slides := ParseRotation(rotation.items);
    return Ok(C.ScreenContent(screenId.t, generatedAt.t, HeldSeconds(Round(refresh.n.value)),
                              if locale == Str(SV) then C.Sv else C.En,
                              timeZone.t, if channel == Str(STABLE) then C.Stable else C.Beta, layout.value,
                              schedule.value, slides));
  }
}
