/**
 What the slides of packages/display/src/rotation.ts say of what they are built from, field by field, once the parser
 has read them.
 */
module BuiltSlides {
  import opened Wrappers
  import opened Texts
  import opened Instants
  import opened Sorting
  import opened Busy
  import opened Rotation
  import C = Contract
  import J = Json
  import P = Parse

  // ---------- Texts, times and numbers ----------

  /** A text as it was when it is short enough, and otherwise a beginning of it with the ellipsis, within the limit. */
  predicate TellsText(shown: Text, own: Text, max: int) {
    if |own| <= max then shown == own
    else 1 <= |shown| <= max && shown[|shown| - 1] == ELLIPSIS && shown[..|shown| - 1] <= own
  }

  predicate TellsOptional(shown: Option<Text>, own: Option<Text>, max: int) {
    && (shown.Some? <==> own.Some? && !Blank(own.value))
    && (shown.Some? ==> TellsText(shown.value, own.value, max))
  }

  /** All texts that are not blank when they are short enough together, and otherwise the first, cut at one place. */
  predicate TellsTexts(shown: seq<Text>, own: seq<Text>, max: int) {
    var all := NonBlank(own);
    if Lengths(all) <= max then shown == all else Lengths(shown) <= max && CutShape(all, shown)
  }

  /** An instant, the time floored to its second. */
  predicate TellsTime(shown: Text, time: int) {
    IsInstant(shown) && TimeOf(shown) % SECOND == 0 && TimeOf(shown) <= time < TimeOf(shown) + SECOND
  }

  /** A number is a whole one. */
  predicate IsWhole(n: J.Number, i: int) {
    n == J.Finite(i as real)
  }

  lemma TextTold(own: Text, max: int)
    requires max >= 1
    ensures TellsText(ShortenText(own, max), own, max)
  {
    WithEllipsisMeaning(own, max);
  }

  lemma OptionalTold(own: Option<Text>, max: int)
    requires max >= 1
    ensures TellsOptional(OptionalText(own, max), own, max)
  {
    hide Blank, ShortenText, TellsText;
    if own.Some? {
      TextTold(own.value, max);
    }
  }

  lemma TextsTold(own: seq<Text>, max: nat)
    requires max >= 1
    ensures TellsTexts(ShortenTexts(own, max), own, max)
  {
    hide ShortenTexts, NonBlank, Lengths, CutShape;
    ShortenTextsMeaning(own, max);
    if Lengths(NonBlank(own)) > max {
      ShortenTextsCut(own, max);
    }
  }

  /** Of texts one after another, those that are not blank are those of the first and those of the rest. */
  lemma {:induction false} NonBlankOf(a: seq<Text>, b: seq<Text>)
    ensures NonBlank(a + b) == NonBlank(a) + NonBlank(b)
  {
    hide Blank;
    if b == [] {
      assert a + b == a;
    } else {
      NonBlankOf(a, b[..|b| - 1]);
      assert (a + b)[..|a + b| - 1] == a + b[..|b| - 1];
    }
  }

  lemma NonBlankAlone(t: Text)
    ensures NonBlank([t]) == if forall i :: 0 <= i < |t| ==> IsSpace(t[i]) then [] else [t]
  {
    assert [t][..0] == [];
  }

  lemma TimeTold(time: int)
    requires InYears(time)
    ensures TellsTime(ToInstant(time), time)
  {
    hide InYears, IsInstant, ToInstant, TimeOf;
    WrittenInstant(time);
    SecondShape(time);
  }

  lemma WholeIs(n: J.Number, i: int)
    ensures IsWhole(n, i) <==> J.IntegerOf(J.Num(n)) == Some(i)
  {
    if n.Finite? && n.value == i as real {
      assert n.value.Floor == i;
    }
  }

  // ---------- News ----------

  /** A picture is on file with a size, and so can be shown. */
  ghost predicate Resolves(c: Candidate, pictures: map<Text, PictureFile>) {
    c.mediaFileId != [] && c.mediaFileId in pictures && exists n: nat :: IsWhole(pictures[c.mediaFileId].byteSize, n)
  }

  ghost predicate TellsPicture(ref: C.PictureRef, c: Candidate, pictures: map<Text, PictureFile>) {
    && c.mediaFileId in pictures && ref.mediaFileId == c.mediaFileId
    && ref.contentType == pictures[c.mediaFileId].contentType && ref.version == pictures[c.mediaFileId].version
    && IsWhole(pictures[c.mediaFileId].byteSize, ref.byteSize) && TellsText(ref.alt, c.alt, C.ALT)
  }

  /** The first of the pictures that can be shown, or none when none can. */
  ghost predicate TellsFirstPicture(shown: Option<C.PictureRef>, candidates: seq<Candidate>,
                                    pictures: map<Text, PictureFile>) {
    if shown.None? then forall k :: 0 <= k < |candidates| ==> !Resolves(candidates[k], pictures)
    else exists k: nat :: FirstResolves(candidates, k, pictures) && TellsPicture(shown.value, candidates[k], pictures)
  }

  ghost predicate FirstResolves(candidates: seq<Candidate>, k: nat, pictures: map<Text, PictureFile>) {
    && k < |candidates| && Resolves(candidates[k], pictures)
    && forall j :: 0 <= j < k ==> !Resolves(candidates[j], pictures)
  }

  lemma SizeOf(c: Candidate, pictures: map<Text, PictureFile>)
    requires c.mediaFileId in pictures
    ensures var size := CountOf(pictures[c.mediaFileId].byteSize);
            && (size.Some? <==> exists n: nat :: IsWhole(pictures[c.mediaFileId].byteSize, n))
            && (size.Some? ==> IsWhole(pictures[c.mediaFileId].byteSize, size.value))
  {
    var size := pictures[c.mediaFileId].byteSize;
    forall n ensures IsWhole(size, n) <==> J.IntegerOf(J.Num(size)) == Some(n) {
      WholeIs(size, n);
    }
  }

  lemma {:induction false} PictureTold(candidates: seq<Candidate>, pictures: map<Text, PictureFile>)
    ensures TellsFirstPicture(FirstPicture(candidates, pictures), candidates, pictures)
  {
    hide CountOf, ShortenText, IsWhole, TellsText;
    if candidates != [] {
      var c, rest := candidates[0], candidates[1..];
      PictureTold(rest, pictures);
      if c.mediaFileId in pictures {
        SizeOf(c, pictures);
      }
      TextTold(c.alt, C.ALT);
      assert forall j :: 1 <= j < |candidates| ==> candidates[j] == rest[j - 1];
      hide Resolves, TellsPicture;
      if Resolves(c, pictures) {
        FirstOne(c, rest, pictures);
        assert FirstResolves(candidates, 0, pictures);
      } else {
        NotFirst(c, rest, pictures);
        if FirstPicture(rest, pictures).Some? {
          var k: nat :| FirstResolves(rest, k, pictures)
                        && TellsPicture(FirstPicture(rest, pictures).value, rest[k], pictures);
          assert FirstResolves(candidates, k + 1, pictures);
        }
      }
    }
  }

  lemma FirstOne(c: Candidate, rest: seq<Candidate>, pictures: map<Text, PictureFile>)
    requires Resolves(c, pictures)
    ensures FirstPicture([c] + rest, pictures).Some?
            && TellsPicture(FirstPicture([c] + rest, pictures).value, c, pictures)
  {
    hide CountOf, ShortenText, IsWhole, TellsText;
    SizeOf(c, pictures);
    TextTold(c.alt, C.ALT);
  }

  lemma NotFirst(c: Candidate, rest: seq<Candidate>, pictures: map<Text, PictureFile>)
    requires !Resolves(c, pictures)
    ensures FirstPicture([c] + rest, pictures) == FirstPicture(rest, pictures)
  {
    hide CountOf, ShortenText, IsWhole;
    assert ([c] + rest)[1..] == rest;
    if c.mediaFileId in pictures {
      SizeOf(c, pictures);
    }
  }

  /** A slide's id is its source's own, after the kind, when that is one, and otherwise a hash of it. */
  predicate TellsId(id: Text, kind: Text, own: Text, hash: Text -> Text) {
    var plain := kind + [DOT] + own;
    if C.IsSlideId(plain) then id == plain else id == kind + [DOT, SMALL_H] + hash(own)
  }

  ghost predicate TellsNews(s: C.Slide, item: NewsItem, pictures: map<Text, PictureFile>, hash: Text -> Text) {
    && s.body.News? && s.seconds == 15 && s.until.None? && TellsId(s.id, P.NEWS, item.id, hash)
    && item.publishedAt.Some? && TellsTime(s.body.publishedAt, item.publishedAt.value)
    && TellsText(s.body.title, item.title, C.TITLE) && TellsTexts(s.body.paragraphs, item.paragraphs, C.PARAGRAPHS)
    && TellsFirstPicture(s.body.newsPicture, item.pictures, pictures)
  }

  lemma NewsTells(item: NewsItem, pictures: map<Text, PictureFile>, hash: Text -> Text)
    requires item.publishedAt.Some? && InYears(item.publishedAt.value)
    ensures TellsNews(NewsSlide(item, item.publishedAt.value, pictures, hash), item, pictures, hash)
  {
    hide InYears, ToInstant, ShortenText, ShortenTexts, FirstPicture, TellsTime, TellsText, TellsTexts,
         TellsFirstPicture, C.IsSlideId, J.Ascii;
    TimeTold(item.publishedAt.value);
    TextTold(item.title, C.TITLE);
    TextsTold(item.paragraphs, C.PARAGRAPHS);
    PictureTold(item.pictures, pictures);
  }

  /** An item that can be dated, and is the first of those with its slide's id. */
  ghost predicate IsFirstDated(items: seq<NewsItem>, hash: Text -> Text, k: nat) {
    && k < |items| && items[k].publishedAt.Some?
    && forall j :: 0 <= j < k && items[j].publishedAt.Some?
                   ==> SlideId(P.NEWS, items[j].id, hash) != SlideId(P.NEWS, items[k].id, hash)
  }

  ghost function FirstDated(items: seq<NewsItem>, hash: Text -> Text): set<nat> {
    set k: nat | k < |items| && IsFirstDated(items, hash, k)
  }

  lemma {:induction false} DatedPicked(items: seq<NewsItem>, hash: Text -> Text) returns (ks: seq<nat>)
    ensures AllOf(ks, |items|, FirstDated(items, hash)) && PickedAt(Dated(items, hash), items, ks)
  {
    hide SlideId, AllOf, PickedAt;
    if items == [] {
      ks := [];
      assert AllOf(ks, 0, FirstDated(items, hash)) && PickedAt([], items, ks) by { NonePicked(items, hash); }
    } else {
      var n := |items| - 1;
      var front := DatedPicked(items[..n], hash);
      SameBelow(items, hash, front);
      AllOneMore(Dated(items[..n], hash), items, front, FirstDated(items, hash));
      LastDated(items, hash);
      ks := if n in FirstDated(items, hash) then front + [n] else front;
    }
  }

  lemma NonePicked(items: seq<NewsItem>, hash: Text -> Text)
    requires items == []
    ensures AllOf([], 0, FirstDated(items, hash)) && PickedAt([], items, [])
  {
  }

  lemma SameBelow(items: seq<NewsItem>, hash: Text -> Text, front: seq<nat>)
    requires items != [] && AllOf(front, |items| - 1, FirstDated(items[..|items| - 1], hash))
    ensures AllOf(front, |items| - 1, FirstDated(items, hash))
  {
    hide SlideId;
    var n := |items| - 1;
    forall k: nat | k < n ensures IsFirstDated(items[..n], hash, k) <==> IsFirstDated(items, hash, k) {
      assert forall j :: 0 <= j < n ==> items[..n][j] == items[j];
    }
  }

  lemma LastDated(items: seq<NewsItem>, hash: Text -> Text)
    requires items != []
    ensures var n := |items| - 1;
            n in FirstDated(items, hash)
            <==> items[n].publishedAt.Some?
                 && SlideId(P.NEWS, items[n].id, hash) !in NewsIds(Dated(items[..n], hash), hash)
  {
    hide SlideId;
    var n := |items| - 1;
    var front := items[..n];
    DatedMeaning(front, hash);
    DatedAll(front, hash);
    if items[n].publishedAt.Some? {
      forall j | 0 <= j < n && items[j].publishedAt.Some?
        ensures SlideId(P.NEWS, items[j].id, hash) in NewsIds(Dated(front, hash), hash)
      {
        assert front[j] == items[j];
      }
      if SlideId(P.NEWS, items[n].id, hash) in NewsIds(Dated(front, hash), hash) {
        var i :| 0 <= i < |Dated(front, hash)|
                 && SlideId(P.NEWS, Dated(front, hash)[i].id, hash) == SlideId(P.NEWS, items[n].id, hash);
        assert Dated(front, hash)[i] in front;
        var j :| 0 <= j < n && front[j] == Dated(front, hash)[i];
        assert items[j] == front[j];
      }
    }
  }

  lemma DatedAll(items: seq<NewsItem>, hash: Text -> Text)
    ensures forall i :: 0 <= i < |Dated(items, hash)| ==> Dated(items, hash)[i].publishedAt.Some?
  {
  }

  /** The news slides are of the first ten of those items, in their order. */
  ghost predicate NewsTold(slides: seq<C.Slide>, items: seq<NewsItem>, pictures: map<Text, PictureFile>,
                           hash: Text -> Text) {
    exists ks :: FirstOf(ks, FirstDated(items, hash), 10) && NewsAt(slides, items, ks, pictures, hash)
  }

  ghost predicate NewsAt(slides: seq<C.Slide>, items: seq<NewsItem>, ks: seq<nat>, pictures: map<Text, PictureFile>,
                         hash: Text -> Text) {
    |slides| == |ks|
    && forall i :: 0 <= i < |ks| ==> ks[i] < |items| && TellsNews(slides[i], items[ks[i]], pictures, hash)
  }

  lemma NewsSlidesTell(items: seq<NewsItem>, pictures: map<Text, PictureFile>, hash: Text -> Text)
    requires NewsInYears(ShownNews(items, hash))
    ensures NewsTold(NewsSlides(items, pictures, hash), items, pictures, hash)
  {
    hide InYears, NewsSlide, TellsNews, Dated, FirstDated, FirstOf, AllOf;
    var all := DatedPicked(items, hash);
    DatedAll(items, hash);
    FirstDatedBelow(items, hash);
    FirstOfAll(Dated(items, hash), items, all, FirstDated(items, hash), NEWS_SLIDES);
    var shown := ShownNews(items, hash);
    var ks := if |all| <= NEWS_SLIDES then all else all[..NEWS_SLIDES];
    var slides := NewsSlides(items, pictures, hash);
    forall i | 0 <= i < |ks| ensures ks[i] < |items| && TellsNews(slides[i], items[ks[i]], pictures, hash) {
      assert shown[i] == items[ks[i]];
      NewsTells(shown[i], pictures, hash);
    }
    assert NewsAt(slides, items, ks, pictures, hash);
  }

  lemma FirstDatedBelow(items: seq<NewsItem>, hash: Text -> Text)
    ensures forall k :: k in FirstDated(items, hash) ==> k < |items|
  {
  }

  // ---------- Events ----------

  /** Places left, rounded down and no fewer than none. */
  predicate TellsPlaces(shown: Option<int>, own: Option<J.Number>) {
    && (shown.Some? <==> own.Some? && own.value.Finite?)
    && (shown.Some? ==>
          && shown.value >= 0 && (shown.value > 0 ==> shown.value as real <= own.value.value)
          && own.value.value < (shown.value + 1) as real)
  }

  predicate TellsOccurrence(shown: C.Occurrence, own: OccurrenceInput) {
    && own.startsAt.Some? && TellsTime(shown.startsAt, own.startsAt.value)
    && own.endsAt.Some? && TellsTime(shown.endsAt, own.endsAt.value)
    && TellsText(shown.title, own.title, C.TITLE)
    && TellsOptional(shown.description, own.description, C.DESCRIPTION)
    && TellsOptional(shown.location, own.location, C.LOCATION)
    && shown.calledOff == own.calledOff && TellsPlaces(shown.placesLeft, own.placesLeft)
  }

  lemma OccurrenceTells(e: Entry)
    requires EntryInYears(e) && e.occurrence.startsAt == Some(e.startsAt) && e.occurrence.endsAt == Some(e.endsAt)
    ensures TellsOccurrence(OccurrenceOf(e), e.occurrence)
  {
    hide InYears, ToInstant, ShortenText, Rotation.OptionalText, TellsTime, TellsText, TellsOptional;
    TimeTold(e.startsAt);
    TimeTold(e.endsAt);
    TextTold(e.occurrence.title, C.TITLE);
    OptionalTold(e.occurrence.description, C.DESCRIPTION);
    OptionalTold(e.occurrence.location, C.LOCATION);
  }

  ghost predicate TellsEvents(s: C.Slide, occurrences: seq<OccurrenceInput>, ks: seq<nat>) {
    && s.body.Events? && s.id == P.EVENTS && s.seconds == 20 && s.until.None? && |s.body.occurrences| == |ks|
    && forall i ::
         0 <= i < |ks| ==> ks[i] < |occurrences| && TellsOccurrence(s.body.occurrences[i], occurrences[ks[i]])
  }

  /** One slide of the soonest occurrences coming, or none when none is. */
  ghost predicate EventsTold(slides: seq<C.Slide>, occurrences: seq<OccurrenceInput>, now: int) {
    exists listed, ks ::
      && ListsSoonest(occurrences, now, listed, ks)
      && if ks == [] then slides == [] else |slides| == 1 && TellsEvents(slides[0], occurrences, ks)
  }

  lemma EventsSlideTells(occurrences: seq<OccurrenceInput>, now: int)
    requires EntriesInYears(Listed(occurrences, now))
    ensures EventsTold(OrNone(EventsSlide(occurrences, now)), occurrences, now)
  {
    hide Listed, OccurrenceOf, EntryInYears, TellsOccurrence, J.Ascii;
    var listed := Listed(occurrences, now);
    var ks := ListedMeaning(occurrences, now);
    forall i | 0 <= i < |ks| ensures TellsOccurrence(OccurrenceOf(listed[i]), occurrences[ks[i]]) {
      assert IsEntryOf(occurrences[ks[i]], now, listed[i]);
      OccurrenceTells(listed[i]);
    }
    assert ListsSoonest(occurrences, now, listed, ks);
  }

  // ---------- The meeting ----------

  /** An agenda item's position is its own when that is a whole number, and otherwise its place in the list. */
  ghost predicate IsPosition(own: J.Number, index: nat, p: int) {
    IsWhole(own, p) || (p == index + 1 && forall q :: !IsWhole(own, q))
  }

  ghost predicate TellsItem(shown: C.AgendaItem, agenda: seq<AgendaInput>, k: nat) {
    && k < |agenda| && IsPosition(agenda[k].position, k, shown.position)
    && TellsText(shown.title, agenda[k].title, C.AGENDA_TITLE)
  }

  /** In order of positions, and of places in the list where they are equal. */
  predicate InFront(p: int, i: nat, q: int, j: nat) {
    p < q || (p == q && i < j)
  }

  /**
   The agenda shows items of the meeting's, each by its own index, in that order; and leaves one out only when it has
   forty, all in front of it.
   */
  ghost predicate TellsAgenda(shown: seq<C.AgendaItem>, agenda: seq<AgendaInput>) {
    exists ks: seq<nat> ::
      && |shown| == |ks| == Min(|agenda|, 40) && (forall i :: 0 <= i < |ks| ==> TellsItem(shown[i], agenda, ks[i]))
      && (forall i, j :: 0 <= i < j < |ks| ==> InFront(shown[i].position, ks[i], shown[j].position, ks[j]))
      && forall k: nat, p, i :: k < |agenda| && k !in ks && IsPosition(agenda[k].position, k, p) && 0 <= i < |ks|
                                ==> InFront(shown[i].position, ks[i], p, k)
  }

  lemma PositionIs(own: J.Number, index: nat, p: int)
    ensures IsPosition(own, index, p) <==> PositionOf(own, index) == p
  {
    forall q ensures IsWhole(own, q) <==> J.IntegerOf(J.Num(own)) == Some(q) {
      WholeIs(own, q);
    }
  }

  /** What the sort leaves at a place: the item with the index it came from. */
  lemma AgendaSorted(agenda: seq<AgendaInput>) returns (ps: seq<nat>)
    ensures Permutes(ps, |agenda|) && |Sort(PlacedItems(agenda), Ahead)| == |agenda|
    ensures forall i ::
              0 <= i < |agenda|
              ==> ps[i] < |agenda| && Sort(PlacedItems(agenda), Ahead)[i] == Placed(agenda[ps[i]], ps[i])
    ensures forall i, j ::
              0 <= i < j < |agenda|
              ==> InFront(PositionOf(agenda[ps[i]].position, ps[i]), ps[i],
                          PositionOf(agenda[ps[j]].position, ps[j]), ps[j])
  {
    hide PositionOf;
    var placed := PlacedItems(agenda);
    AheadIsOrder();
    SortMeaning(placed, Ahead);
    ps := SortPermutes(placed, Ahead);
    var sorted := Sort(placed, Ahead);
    hide Sort;
    forall i | 0 <= i < |agenda| ensures ps[i] < |agenda| && sorted[i] == Placed(agenda[ps[i]], ps[i]) {
      assert placed[ps[i]] == Placed(agenda[ps[i]], ps[i]);
    }
    forall i, j | 0 <= i < j < |agenda|
      ensures InFront(PositionOf(agenda[ps[i]].position, ps[i]), ps[i],
                      PositionOf(agenda[ps[j]].position, ps[j]), ps[j])
    {
      assert Ahead(sorted[i], sorted[j]) && ps[i] != ps[j];
    }
  }

  lemma AgendaMeaning(agenda: seq<AgendaInput>)
    ensures TellsAgenda(AgendaOf(agenda), agenda)
  {
    hide PositionOf, Ahead, ShortenText, IsPosition, TellsText;
    var ps := AgendaSorted(agenda);
    var shown := AgendaOf(agenda);
    var n := |shown|;
    var ks := ps[..n];
    forall i | 0 <= i < n
      ensures TellsItem(shown[i], agenda, ks[i]) && shown[i].position == PositionOf(agenda[ks[i]].position, ks[i])
    {
      assert ks[i] == ps[i];
      PositionIs(agenda[ks[i]].position, ks[i], shown[i].position);
      TextTold(agenda[ks[i]].title, C.AGENDA_TITLE);
    }
    forall k: nat, p, i | k < |agenda| && k !in ks && IsPosition(agenda[k].position, k, p) && 0 <= i < n
      ensures InFront(shown[i].position, ks[i], p, k)
    {
      PositionIs(agenda[k].position, k, p);
      assert k in ps;
      var j :| 0 <= j < |ps| && ps[j] == k;
      FirstHas(ps, n);
      assert ks[i] == ps[i];
    }
  }

  lemma FirstHas(ps: seq<nat>, n: nat)
    requires n <= |ps|
    ensures forall j :: 0 <= j < n ==> ps[j] in ps[..n]
  {
    forall j | 0 <= j < n ensures ps[j] in ps[..n] {
      assert ps[..n][j] == ps[j];
    }
  }

  ghost predicate TellsMeeting(s: C.Slide, n: MeetingNotice, hash: Text -> Text) {
    && s.body.Meeting? && s.seconds == 20 && TellsId(s.id, P.MEETING, n.meetingId, hash)
    && n.startsAt.Some? && TellsTime(s.body.startsAt, n.startsAt.value) && s.until == Some(s.body.startsAt)
    && s.body.meetingKind == n.kind && TellsText(s.body.place, n.place, C.PLACE)
    && TellsOptional(s.body.digitalParticipation, n.digitalParticipation, C.DIGITAL_PARTICIPATION)
    && TellsAgenda(s.body.agenda, n.agenda)
  }

  /** One slide of the soonest meeting that has not begun, or none when all have. */
  ghost predicate MeetingTold(slides: seq<C.Slide>, notices: seq<MeetingNotice>, now: int, hash: Text -> Text) {
    if AllBegun(notices, now) then slides == []
    else |slides| == 1 && exists k: nat :: IsSoonest(notices, now, k) && TellsMeeting(slides[0], notices[k], hash)
  }

  lemma MeetingSlideTells(notices: seq<MeetingNotice>, now: int, hash: Text -> Text)
    requires Soonest(notices, now).Some? ==> InYears(Soonest(notices, now).value.startsAt.value)
    ensures MeetingTold(OrNone(MeetingSlide(notices, now, hash)), notices, now, hash)
  {
    hide InYears, ToInstant, ShortenText, Rotation.OptionalText, AgendaOf, Soonest, TellsTime, TellsText,
         TellsOptional, TellsAgenda, C.IsSlideId, J.Ascii, IsSoonest, AllBegun;
    var k := SoonestMeaning(notices, now);
    MeetingSome(notices, now, hash);
    if Soonest(notices, now).Some? {
      var n := Soonest(notices, now).value;
      TimeTold(n.startsAt.value);
      TextTold(n.place, C.PLACE);
      OptionalTold(n.digitalParticipation, C.DIGITAL_PARTICIPATION);
      AgendaMeaning(n.agenda);
      assert IsSoonest(notices, now, k) && TellsMeeting(OrNone(MeetingSlide(notices, now, hash))[0], notices[k], hash);
    }
  }

  // ---------- Availability ----------

  /** Minutes of a day, when the number is that. */
  ghost predicate TellsMinutes(shown: Option<int>, own: Option<J.Number>) {
    forall m :: shown == Some(m) <==> own.Some? && IsWhole(own.value, m) && 0 <= m <= 24 * 60
  }

  lemma MinutesTold(own: Option<J.Number>)
    ensures TellsMinutes(MinutesOrNull(own), own)
  {
    forall m ensures MinutesOrNull(own) == Some(m) <==> own.Some? && IsWhole(own.value, m) && 0 <= m <= 24 * 60 {
      if own.Some? {
        WholeIs(own.value, m);
      }
    }
  }

  /** Intervals apart from each other that take exactly the instants the resource's bookings do. */
  ghost predicate TellsBusy(shown: seq<C.BusyInterval>, bookings: seq<Booking>, id: Text, span: Span, now: int) {
    exists busy: seq<Interval> ::
      && |busy| == |shown| && Separated(busy)
      && (forall i :: 0 <= i < |busy| ==>
            && IsInstant(shown[i].start) && TimeOf(shown[i].start) == busy[i].start
            && IsInstant(shown[i].end) && TimeOf(shown[i].end) == busy[i].end)
      && forall x :: Covers(busy, x) <==> Booked(bookings, id, span.from, span.to, now, x)
  }

  ghost predicate TellsResource(shown: C.Resource, own: ResourceInput, bookings: seq<Booking>, span: Span, now: int) {
    && own.mode == Some(shown.mode) && TellsText(shown.name, own.name, C.RESOURCE_NAME)
    && TellsMinutes(shown.slotMinutes, own.slotMinutes) && TellsMinutes(shown.opensAtMinute, own.opensAtMinute)
    && TellsMinutes(shown.closesAtMinute, own.closesAtMinute)
    && TellsBusy(shown.busy, bookings, own.id, span, now)
  }

  lemma ResourceTells(r: ResourceInput, bookings: seq<Booking>, span: Span, now: int)
    requires r.mode.Some? && SpanInYears(span) && span.from % SECOND == 0 && span.to % SECOND == 0
    ensures TellsResource(ResourceOf(r, bookings, span, now), r, bookings, span, now)
  {
    hide InYears, ToInstant, TimeOf, ShortenText, TellsText, MinutesOrNull, TellsMinutes, BusyOf, Booked, Covers;
    TextTold(r.name, C.RESOURCE_NAME);
    MinutesTold(r.slotMinutes);
    MinutesTold(r.opensAtMinute);
    MinutesTold(r.closesAtMinute);
    var busy := BusyOf(r.id, bookings, span.from, span.to, now);
    BusyOfMeaning(r.id, bookings, span.from, span.to, now);
    BusyWholeSeconds(r.id, bookings, span.from, span.to, now);
    IntervalsWritten(busy, span.from, span.to);
    assert |busy| == |ResourceOf(r, bookings, span, now).busy|;
  }

  ghost function Moded(resources: seq<ResourceInput>): set<nat> {
    set k: nat | k < |resources| && resources[k].mode.Some?
  }

  lemma {:induction false} KnownPicked(resources: seq<ResourceInput>) returns (ks: seq<nat>)
    ensures AllOf(ks, |resources|, Moded(resources)) && PickedAt(Known(resources), resources, ks)
  {
    if resources == [] {
      ks := [];
    } else {
      var n := |resources| - 1;
      var front := KnownPicked(resources[..n]);
      assert forall k: nat :: k < n ==> resources[..n][k] == resources[k];
      assert AllOf(front, n, Moded(resources));
      AllOneMore(Known(resources[..n]), resources, front, Moded(resources));
      ks := if n in Moded(resources) then front + [n] else front;
    }
  }

  /**
   The span told: from the minute of the later of the input's start and now, to the second of the input's end, no more
   than seven days on; and there is one when any time lies between.
   */
  ghost predicate TellsSpan(span: Span, a: AvailabilityInput, now: int) {
    && a.from.Some? && a.to.Some? && span.from < span.to
    && span.from % MINUTE == 0 && span.from <= Max(a.from.value, now) < span.from + MINUTE
    && span.to % SECOND == 0 && span.to <= Min(a.to.value, span.from + 7 * DAY) < span.to + SECOND
  }

  lemma SpanTold(a: AvailabilityInput, now: int)
    ensures WindowOf(a, now).Some? <==> exists span :: TellsSpan(span, a, now)
    ensures WindowOf(a, now).Some? ==> TellsSpan(WindowOf(a, now).value, a, now)
  {
    hide WindowOf, TellsSpan;
    if WindowOf(a, now).Some? {
      SpanFound(a, now);
    }
    if span :| TellsSpan(span, a, now) {
      SpanOnly(a, now, span);
    }
  }

  lemma SpanFound(a: AvailabilityInput, now: int)
    requires WindowOf(a, now).Some?
    ensures TellsSpan(WindowOf(a, now).value, a, now)
  {
    hide FloorToMinute, FloorToSecond;
    var from := FloorToMinute(Max(a.from.value, now));
    MinuteShape(Max(a.from.value, now));
    SecondShape(Min(a.to.value, from + C.AVAILABILITY_DAYS * DAY));
  }

  lemma SpanOnly(a: AvailabilityInput, now: int, span: Span)
    requires TellsSpan(span, a, now)
    ensures WindowOf(a, now) == Some(span)
  {
    hide FloorToMinute, FloorToSecond;
    MinuteShape(Max(a.from.value, now));
    OneMinute(FloorToMinute(Max(a.from.value, now)), span.from, Max(a.from.value, now));
    var last := Min(a.to.value, span.from + C.AVAILABILITY_DAYS * DAY);
    SecondShape(last);
    OneSecond(FloorToSecond(last), span.to, last);
  }

  lemma OneMinute(m: int, n: int, x: int)
    requires m % MINUTE == 0 && n % MINUTE == 0 && m <= x < m + MINUTE && n <= x < n + MINUTE
    ensures m == n
  {
  }

  lemma OneSecond(m: int, n: int, x: int)
    requires m % SECOND == 0 && n % SECOND == 0 && m <= x < m + SECOND && n <= x < n + SECOND
    ensures m == n
  {
  }

  ghost predicate TellsAvailability(s: C.Slide, a: AvailabilityInput, now: int, span: Span, ks: seq<nat>) {
    && s.body.Availability? && s.id == P.AVAILABILITY && s.seconds == 20 && s.until.None?
    && IsInstant(s.body.from) && TimeOf(s.body.from) == span.from && IsInstant(s.body.to)
    && TimeOf(s.body.to) == span.to && |s.body.resources| == |ks|
    && forall i ::
         0 <= i < |ks|
         ==> ks[i] < |a.resources| && TellsResource(s.body.resources[i], a.resources[ks[i]], a.busy, span, now)
  }

  /** One slide of the first twelve resources, or none when there is no resource or nothing of the span is left. */
  ghost predicate AvailabilityTold(slides: seq<C.Slide>, a: AvailabilityInput, now: int) {
    exists ks ::
      && FirstOf(ks, Moded(a.resources), 12)
      && if ks == [] || !(exists span :: TellsSpan(span, a, now)) then slides == []
         else |slides| == 1
              && exists span :: TellsSpan(span, a, now) && TellsAvailability(slides[0], a, now, span, ks)
  }

  lemma AvailabilitySlideTells(a: AvailabilityInput, now: int)
    requires AvailabilitySlide(a, now).Some? ==> SpanInYears(WindowOf(a, now).value)
    ensures AvailabilityTold(OrNone(AvailabilitySlide(a, now)), a, now)
  {
    hide InYears, ToInstant, TimeOf, IsInstant, WindowOf, Known, ResourceOf, TellsResource, TellsSpan, J.Ascii,
         AllOf, FirstOf, Moded;
    var all := KnownPicked(a.resources);
    ModedBelow(a.resources);
    FirstOfAll(Known(a.resources), a.resources, all, Moded(a.resources), C.RESOURCES_MAX);
    var ks := if |all| <= C.RESOURCES_MAX then all else all[..C.RESOURCES_MAX];
    assert PickedAt(ShownResources(a.resources), a.resources, ks);
    SpanTold(a, now);
    if AvailabilitySlide(a, now).Some? {
      var span := WindowOf(a, now).value;
      WindowShape(a, now);
      SpanWritten(span);
      var s := AvailabilitySlide(a, now).value;
      forall i | 0 <= i < |ks| ensures TellsResource(s.body.resources[i], a.resources[ks[i]], a.busy, span, now) {
        ResourceTells(ShownResources(a.resources)[i], a.busy, span, now);
      }
      assert TellsSpan(span, a, now) && TellsAvailability(s, a, now, span, ks);
    }
  }

  lemma ModedBelow(resources: seq<ResourceInput>)
    ensures forall k :: k in Moded(resources) ==> k < |resources|
  {
  }

  lemma SpanWritten(span: Span)
    requires SpanInYears(span) && span.from % SECOND == 0 && span.to % SECOND == 0
    ensures IsInstant(ToInstant(span.from)) && TimeOf(ToInstant(span.from)) == span.from
    ensures IsInstant(ToInstant(span.to)) && TimeOf(ToInstant(span.to)) == span.to
  {
    hide InYears, ToInstant, TimeOf, IsInstant;
    WrittenInstant(span.from);
    WrittenInstant(span.to);
  }

  // ---------- The whole rotation, read by the parser ----------

  ghost predicate RotationTold(slides: seq<C.Slide>, news: seq<C.Slide>, events: seq<C.Slide>, meeting: seq<C.Slide>,
                               availability: seq<C.Slide>, input: RotationInput, hash: Text -> Text) {
    && slides == news + events + meeting + availability
    && (if input.news.Some? then NewsTold(news, input.news.value, input.pictures, hash) else news == [])
    && (if input.occurrences.Some? then EventsTold(events, input.occurrences.value, input.now) else events == [])
    && (if input.notices.Some? then MeetingTold(meeting, input.notices.value, input.now, hash) else meeting == [])
    && if input.availability.Some? then AvailabilityTold(availability, input.availability.value, input.now)
       else availability == []
  }

  /**
   What the parser reads of the slides built: news, events, the meeting and availability, in this order, each only when
   its input is given and has something to show, and each saying of its own input what is so.
   */
  lemma BuiltSlidesTell(input: RotationInput, hash: Text -> Text)
    requires IsHash(hash) && TimesInYears(input, hash)
    ensures exists news, events, meeting, availability ::
              RotationTold(P.RotationOf(J.MapJson(BuildRotation(input, hash), P.SlideJson).items), news, events,
                           meeting, availability, input, hash)
  {
    hide NewsSlides, EventsSlide, MeetingSlide, AvailabilitySlide, Listed, ShownNews, Soonest, WindowOf, NewsTold,
         EventsTold, MeetingTold, AvailabilityTold, P.RotationOf, P.SlideJson, InYears, SpanInYears, NewsInYears,
         EntriesInYears;
    BuildAcceptedIff(input, hash);
    if input.news.Some? {
      NewsSlidesTell(input.news.value, input.pictures, hash);
    }
    if input.occurrences.Some? {
      EventsSlideTells(input.occurrences.value, input.now);
    }
    if input.notices.Some? {
      MeetingSlideTells(input.notices.value, input.now, hash);
    }
    if input.availability.Some? {
      AvailabilitySlideTells(input.availability.value, input.now);
    }
    assert RotationTold(BuildRotation(input, hash), NewsPart(input, hash), EventsPart(input), MeetingPart(input, hash),
                        AvailabilityPart(input), input, hash);
  }
}
