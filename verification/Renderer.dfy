/**
 The renderer of packages/display/src/renderer.ts without the page it draws on: the rotation with its slide and minute
 timers, the document's replacement, and the ledger of picture URLs.

 `Screen` is everything the renderer holds, with the clock, the timers the browser has armed, and what became of each
 URL. A picture entry is known by the number of the request it was made for.
 */
module Renderer {
  import opened Wrappers
  import opened Texts
  import opened Instants
  import C = Contract
  import Fit

  const PICTURE_RETRY := 5 * MINUTE

  // ---------- What is held ----------

  datatype EntryState = Pending | Ready | Failed

  datatype Entry = Entry(id: nat, ref: C.PictureRef, state: EntryState, url: Option<Text>, askedAt: int)

  /** A request for a picture that has not settled. */
  datatype Asked = Asked(key: Text, ref: C.PictureRef)

  /** All that a slide's drawing is made from. */
  datatype Look = Look(slide: C.Slide, locale: C.Locale, timeZone: Text, url: Option<Text>, minute: Option<int>,
                       day: int)

  datatype Current = Current(index: nat, id: Text, look: Look, endsAt: int, page: nat, pages: nat)

  /** `timers` are the slide timers the browser has armed, by handle, and when they are due. */
  datatype Screen = Screen(now: int, content: Option<C.ScreenContent>, current: Option<Current>, unit: int,
                           slideTimer: Option<nat>,
                           minuteTimer: Option<int>, destroyed: bool, pictures: map<Text, Entry>, asked: nat,
                           pending: map<nat, Asked>,
                           timers: map<nat, int>, armed: nat, handed: set<nat>, released: multiset<nat>)

  /**
   The page around it: whether there is a `picture` function and for which of its calls it throws, how a look is fitted
   at a unit and a page, and when the day of a time zone begins.
   */
  datatype Host = Host(hasPicture: bool, throws: nat -> bool, fit: (Look, int, nat) -> Fit.SlideFit,
                       dayStart: (int, Text) -> int)

  ghost predicate GoodHost(host: Host) {
    forall look, unit, page :: host.fit(look, unit, page).page < host.fit(look, unit, page).pages
  }

  const NUL: CodeUnit := 0

  function KeyOf(ref: C.PictureRef): Text {
    ref.mediaFileId + [NUL] + ref.version
  }

  function PictureOf(slide: C.Slide): Option<C.PictureRef> {
    match slide.body
    case News(_, _, picture, _) => picture
    case Picture(picture, _) => Some(picture)
    case _ => None
  }

  function UrlOf(pictures: map<Text, Entry>, ref: C.PictureRef): Option<Text> {
    var key := KeyOf(ref);
    if key in pictures && pictures[key].state.Ready? then pictures[key].url else None
  }

  // ---------- Pictures ----------

  /** The requests whose URL the entries hold. */
  function HeldIds(pictures: map<Text, Entry>): set<nat> {
    set k | k in pictures && pictures[k].url.Some? :: pictures[k].id
  }

  function Release(s: Screen, e: Entry): Screen {
    if e.url.Some? then s.(released := s.released + multiset{e.id}) else s
  }

  function ReleaseAll(s: Screen): Screen {
    s.(released := s.released + multiset(HeldIds(s.pictures)), pictures := map[])
  }

  /** The pictures a rotation refers to, in order, each key once. */
  function WantedKeys(rotation: seq<C.Slide>): seq<Text> {
    if rotation == [] then []
    else
      var front := WantedKeys(rotation[..|rotation| - 1]);
      var ref := PictureOf(rotation[|rotation| - 1]);
      if ref.Some? && KeyOf(ref.value) !in front then front + [KeyOf(ref.value)] else front
  }

  function WantedRefs(rotation: seq<C.Slide>): map<Text, C.PictureRef> {
    if rotation == [] then map[]
    else
      var front := WantedRefs(rotation[..|rotation| - 1]);
      var ref := PictureOf(rotation[|rotation| - 1]);
      if ref.Some? then front[KeyOf(ref.value) := ref.value] else front
  }

  function Unwanted(pictures: map<Text, Entry>, refs: map<Text, C.PictureRef>): map<Text, Entry> {
    map k | k in pictures && k !in refs :: pictures[k]
  }

  /** What no document refers to any more is let go of. */
  function LetGo(s: Screen, refs: map<Text, C.PictureRef>): Screen {
    s.(released := s.released + multiset(HeldIds(Unwanted(s.pictures, refs))),
       pictures := map k | k in s.pictures && k in refs :: s.pictures[k])
  }

  function Ask(s: Screen, key: Text, ref: C.PictureRef, host: Host): Screen {
    var waits := host.hasPicture && !host.throws(s.asked);
    s.(pictures := s.pictures[key := Entry(s.asked, ref, if waits then Pending else Failed, None, s.now)],
       pending := if waits then s.pending[s.asked := Asked(key, ref)] else s.pending,
       asked := s.asked + 1)
  }

  predicate AsksAgain(s: Screen, key: Text) {
    key !in s.pictures || (s.pictures[key].state.Failed? && s.now - s.pictures[key].askedAt >= PICTURE_RETRY)
  }

  function AskWanted(s: Screen, keys: seq<Text>, refs: map<Text, C.PictureRef>, host: Host): Screen {
    if keys == [] then s
    else
      var t := AskWanted(s, keys[..|keys| - 1], refs, host);
      var key := keys[|keys| - 1];
      if key in refs && AsksAgain(t, key) then Ask(t, key, refs[key], host) else t
  }

  function SyncPictures(s: Screen, next: C.ScreenContent, host: Host): Screen {
    var refs := WantedRefs(next.rotation);
    AskWanted(LetGo(s, refs), WantedKeys(next.rotation), refs, host)
  }

  // ---------- The rotation ----------

  function UntilOf(slide: C.Slide): Option<int> {
    if slide.until.Some? then Some(TimeOf(slide.until.value)) else None
  }

  predicate Showable(s: Screen, slide: C.Slide) {
    && (UntilOf(slide).Some? ==> s.now < UntilOf(slide).value)
    && (slide.body.Picture? ==> UrlOf(s.pictures, slide.body.picture).Some?)
  }

  /** A slide `renderSlide` makes something of. */
  predicate Drawable(pictures: map<Text, Entry>, slide: C.Slide) {
    slide.body.Picture? ==> UrlOf(pictures, slide.body.picture).Some?
  }

  function LookOf(s: Screen, slide: C.Slide, content: C.ScreenContent, host: Host): Look {
    Look(slide, content.locale, content.timeZone,
         if PictureOf(slide).Some? then UrlOf(s.pictures, PictureOf(slide).value) else None,
         if slide.body.Availability? then Some(s.now / MINUTE) else None, host.dayStart(s.now, content.timeZone))
  }

  function ClearSlideTimer(s: Screen): Screen {
    if s.slideTimer.Some? then s.(timers := s.timers - {s.slideTimer.value}, slideTimer := None) else s
  }

  function ArmSlideTimer(s: Screen, due: int): Screen {
    s.(timers := s.timers[s.armed := due], slideTimer := Some(s.armed), armed := s.armed + 1)
  }

  /** When the page on screen is to leave it. */
  function LeavesAt(slide: C.Slide, endsAt: int): int {
    if UntilOf(slide).Some? then Min(endsAt, UntilOf(slide).value) else endsAt
  }

  /** Whether a page is on screen already, and looks as it did. */
  predicate Stays(current: Option<Current>, slide: C.Slide, look: Look, page: nat) {
    current.Some? && current.value.id == slide.id && current.value.look == look && current.value.page == page
  }

  function FitAfter(s: Screen, slide: C.Slide, look: Look, page: nat, host: Host): (nat, nat) {
    if Stays(s.current, slide, look, page) then (page, s.current.value.pages)
    else
      var fit := host.fit(look, s.unit, page);
      (fit.page, fit.pages)
  }

  /** `draw`, of a slide that can be drawn: the page is drawn unless it is on screen, and its timer armed. */
  function Draw(s: Screen, slide: C.Slide, index: nat, endsAt: int, page: nat, host: Host): Screen {
    if s.content.None? then s
    else
      var look := LookOf(s, slide, s.content.value, host);
      var fit := FitAfter(s, slide, look, page, host);
      var t := ClearSlideTimer(s.(current := Some(Current(index, slide.id, look, endsAt, fit.0, fit.1))));
      ArmSlideTimer(t, s.now + Max(0, LeavesAt(slide, endsAt) - s.now))
  }

  /** The search of `showFrom`, from its step `step` on. */
  function FindFrom(s: Screen, rotation: seq<C.Slide>, from: nat, step: nat): (r: Option<nat>)
    requires step <= |rotation|
    ensures r.Some? ==> r.value < |rotation| && Showable(s, rotation[r.value])
    decreases |rotation| - step
  {
    if step == |rotation| then None
    else
      var index := (from + step) % |rotation|;
      if Showable(s, rotation[index]) then Some(index) else FindFrom(s, rotation, from, step + 1)
  }

  function ShowFrom(s: Screen, from: nat, host: Host): Screen {
    if s.content.None? then s
    else
      var rotation := s.content.value.rotation;
      var index := FindFrom(s, rotation, from, 0);
      if index.Some? then
        var slide := rotation[index.value];
        Draw(s, slide, index.value, s.now + slide.seconds * SECOND, 0, host)
      else ClearSlideTimer(s).(current := None)
  }

  function SlideAt(s: Screen): Option<C.Slide> {
    if s.current.None? || s.content.None? || s.current.value.index >= |s.content.value.rotation| then None
    else Some(s.content.value.rotation[s.current.value.index])
  }

  function Advance(s: Screen, host: Host): Screen {
    var t := s.(slideTimer := None);
    var slide := SlideAt(t);
    if slide.Some? && t.current.value.page + 1 < t.current.value.pages && Showable(t, slide.value) then
      Draw(t, slide.value, t.current.value.index, t.now + slide.value.seconds * SECOND, t.current.value.page + 1, host)
    else ShowFrom(t, if t.current.None? then 0 else t.current.value.index + 1, host)
  }

  /** `draw` of any slide: one that has to be drawn, and that `renderSlide` makes nothing of, is left for the next. */
  function DrawOrLeave(s: Screen, slide: C.Slide, index: nat, endsAt: int, page: nat, host: Host): Screen {
    if s.content.None? then s
    else if Drawable(s.pictures, slide) || Stays(s.current, slide, LookOf(s, slide, s.content.value, host), page) then
      Draw(s, slide, index, endsAt, page, host)
    else Advance(s.(current := None), host)
  }

  function PictureChanged(s: Screen, key: Text, host: Host): Screen {
    if s.content.None? then s
    else if s.current.None? then ShowFrom(s, 0, host)
    else
      var slide := SlideAt(s);
      if slide.Some? && PictureOf(slide.value).Some? && KeyOf(PictureOf(slide.value).value) == key then
        if slide.value.body.Picture? && UrlOf(s.pictures, slide.value.body.picture).None? then Advance(s, host)
        else DrawOrLeave(s, slide.value, s.current.value.index, s.current.value.endsAt, s.current.value.page, host)
      else s
  }

  /** `settle`: the answer of `picture` to request `id`. */
  function Settle(s: Screen, id: nat, url: Option<Text>, host: Host): Screen
    requires id in s.pending
  {
    var key := s.pending[id].key;
    var t := s.(pending := s.pending - {id}, handed := if url.Some? then s.handed + {id} else s.handed);
    if s.destroyed || key !in s.pictures || s.pictures[key].id != id then
      if url.Some? then t.(released := t.released + multiset{id}) else t
    else
      var entry := s.pictures[key].(state := if url.None? then Failed else Ready, url := url);
      PictureChanged(t.(pictures := t.pictures[key := entry]), key, host)
  }

  /** `pictureFailed`: a ready entry loses its URL. */
  function PictureFailed(s: Screen, ref: C.PictureRef, host: Host): Screen {
    var key := KeyOf(ref);
    if key !in s.pictures || !s.pictures[key].state.Ready? then s
    else
      var t := Release(s, s.pictures[key]);
      PictureChanged(t.(pictures := t.pictures[key := s.pictures[key].(state := Failed, url := None)]), key, host)
  }

  function Refit(s: Screen, host: Host): Screen {
    if s.current.None? then s
    else
      var fit := host.fit(s.current.value.look, s.unit, s.current.value.page);
      s.(current := Some(s.current.value.(page := fit.page, pages := fit.pages)))
  }

  function ScheduleTick(s: Screen): Screen {
    s.(minuteTimer := Some(s.now + MINUTE - s.now % MINUTE))
  }

  /** `tick`. */
  function Tick(s: Screen, host: Host): Screen {
    var t := s.(minuteTimer := None);
    if s.destroyed then t
    else if s.content.None? then ScheduleTick(t)
    else if s.current.None? then ScheduleTick(ShowFrom(t, 0, host))
    else
      var slide := SlideAt(t);
      if slide.Some? && LookOf(t, slide.value, t.content.value, host) != t.current.value.look then
        ScheduleTick(DrawOrLeave(t, slide.value, t.current.value.index, t.current.value.endsAt, t.current.value.page,
                                 host))
      else ScheduleTick(t)
  }

  function IndexOfId(rotation: seq<C.Slide>, id: Text, from: nat): (r: Option<nat>)
    requires from <= |rotation|
    ensures r.Some? ==> r.value < |rotation| && rotation[r.value].id == id
    decreases |rotation| - from
  {
    if from == |rotation| then None
    else if rotation[from].id == id then Some(from) else IndexOfId(rotation, id, from + 1)
  }

  /** The index at which a document still has the slide on screen, when it can be shown. */
  function KeptAt(s: Screen, next: C.ScreenContent, previous: Option<Current>): (r: Option<nat>)
    ensures r.Some?
            ==> r.value < |next.rotation| && Showable(s, next.rotation[r.value]) && previous.Some?
                && next.rotation[r.value].id == previous.value.id
  {
    if previous.None? then None
    else
      var kept := IndexOfId(next.rotation, previous.value.id, 0);
      if kept.Some? && Showable(s, next.rotation[kept.value]) then kept else None
  }

  /**
   What `show` has done when it comes to the slide: the document taken, the slide fitted again, the pictures asked for.
   */
  function Taken(s: Screen, next: C.ScreenContent, unit: int, host: Host): Screen {
    SyncPictures(Refit(s.(content := Some(next), unit := unit), host), next, host)
  }

  /** `show`, with the unit the canvas has then. */
  function Show(s: Screen, next: C.ScreenContent, unit: int, host: Host): Screen {
    if s.destroyed then s
    else
      var t := Taken(s, next, unit, host);
      var kept := KeptAt(t, next, s.current);
      ScheduleTick(if kept.Some? then Draw(t, next.rotation[kept.value], kept.value, s.current.value.endsAt,
                                           s.current.value.page, host)
                   else ShowFrom(ClearSlideTimer(t.(current := None)), 0, host))
  }

  /** `message`. */
  function Message(s: Screen, unit: int): Screen {
    if s.destroyed then s
    else ReleaseAll(ClearSlideTimer(s.(content := None, current := None))).(unit := unit)
  }

  function Destroy(s: Screen): Screen {
    if s.destroyed then s
    else ReleaseAll(ClearSlideTimer(s.(destroyed := true))).(minuteTimer := None, content := None, current := None)
  }

  /** A slide timer the browser armed is due. */
  function TimerFires(s: Screen, handle: nat, host: Host): Screen {
    Advance(s.(timers := s.timers - {handle}), host)
  }

  function Resize(s: Screen, unit: int, host: Host): Screen {
    if s.destroyed then s else Refit(s.(unit := unit), host)
  }

  /** A renderer just mounted. */
  function Mounted(now: int, unit: int): Screen {
    Screen(now, None, None, unit, None, None, false, map[], 0, map[], map[], 0, {}, multiset{})
  }

  // ---------- Runs ----------

  datatype Step =
    | ShowStep(at: int, next: C.ScreenContent, unit: int)
    | MessageStep(at: int, unit: int)
    | DestroyStep(at: int)
    | SettleStep(at: int, id: nat, url: Option<Text>)
    | ImageErrorStep(at: int, ref: C.PictureRef)
    | SlideTimerStep(at: int, handle: nat)
    | MinuteTimerStep(at: int)
    | ResizeStep(at: int, unit: int)

  /** Every slide of a document has its seconds, as the parser saw to. */
  predicate Timed(content: C.ScreenContent) {
    forall i :: 0 <= i < |content.rotation| ==> content.rotation[i].seconds >= C.SLIDE_SECONDS_MIN
  }

  /** The clock never goes back, no timer is late, and a document shown was parsed. */
  predicate Possible(s: Screen, step: Step) {
    && s.now <= step.at
    && (forall h :: h in s.timers ==> step.at <= s.timers[h])
    && (s.minuteTimer.Some? ==> step.at <= s.minuteTimer.value)
    && (step.SettleStep? ==> step.id in s.pending)
    && (step.SlideTimerStep? ==> step.handle in s.timers && s.timers[step.handle] == step.at)
    && (step.MinuteTimerStep? ==> s.minuteTimer == Some(step.at))
    && (step.ShowStep? ==> Timed(step.next))
  }

  function Do(s: Screen, step: Step, host: Host): Screen {
    var t := s.(now := step.at);
    match step
    case ShowStep(_, next, unit) => Show(t, next, unit, host)
    case MessageStep(_, unit) => Message(t, unit)
    case DestroyStep(_) => Destroy(t)
    case SettleStep(_, id, url) => if id in t.pending then Settle(t, id, url, host) else t
    case ImageErrorStep(_, ref) => PictureFailed(t, ref, host)
    case SlideTimerStep(_, handle) => TimerFires(t, handle, host)
    case MinuteTimerStep(_) => Tick(t, host)
    case ResizeStep(_, unit) => Resize(t, unit, host)
  }

  function Run(s: Screen, steps: seq<Step>, host: Host): Screen {
    if steps == [] then s else Do(Run(s, steps[..|steps| - 1], host), steps[|steps| - 1], host)
  }

  predicate PossibleRun(s: Screen, steps: seq<Step>, host: Host) {
    steps == []
    || (PossibleRun(s, steps[..|steps| - 1], host) && Possible(Run(s, steps[..|steps| - 1], host), steps[|steps| - 1]))
  }

  // ---------- The ledger of picture URLs ----------

  ghost predicate DistinctIds(pictures: map<Text, Entry>) {
    forall j, k :: j in pictures && k in pictures && j != k ==> pictures[j].id != pictures[k].id
  }

  /** An entry is of a request made; a ready one holds its URL, and a pending one's request has not settled. */
  ghost predicate EntryOk(s: Screen, key: Text, e: Entry) {
    && e.id < s.asked && (e.url.Some? <==> e.state.Ready?)
    && (e.state.Ready? ==> e.id in s.handed)
    && (e.id in s.pending ==> e.state.Pending? && s.pending[e.id].key == key)
  }

  /** A URL handed back is held by its entry, or has been released once; one that was not is not released. */
  ghost predicate Ledger(s: Screen) {
    && DistinctIds(s.pictures) && (forall k :: k in s.pictures ==> EntryOk(s, k, s.pictures[k]))
    && (forall id :: id in s.pending ==> id < s.asked && id !in s.handed)
    && (forall id :: id in s.handed ==> id < s.asked)
    && (forall id :: s.released[id] == if id in s.handed && id !in HeldIds(s.pictures) then 1 else 0)
    && (s.destroyed ==> s.pictures == map[])
  }

  /** What the ledger is about. */
  ghost predicate SameBooks(s: Screen, t: Screen) {
    && s.pictures == t.pictures && s.asked == t.asked && s.pending == t.pending && s.handed == t.handed
    && s.released == t.released
    && s.destroyed == t.destroyed && s.now == t.now
  }

  lemma DrawBooks(s: Screen, slide: C.Slide, index: nat, endsAt: int, page: nat, host: Host)
    ensures SameBooks(s, Draw(s, slide, index, endsAt, page, host))
  {
    hide LookOf, FitAfter, LeavesAt;
  }

  lemma ShowFromBooks(s: Screen, from: nat, host: Host)
    ensures SameBooks(s, ShowFrom(s, from, host))
  {
    hide Draw, FindFrom;
    if s.content.Some? {
      var index := FindFrom(s, s.content.value.rotation, from, 0);
      if index.Some? {
        var slide := s.content.value.rotation[index.value];
        DrawBooks(s, slide, index.value, s.now + slide.seconds * SECOND, 0, host);
      }
    }
  }

  lemma AdvanceBooks(s: Screen, host: Host)
    ensures SameBooks(s, Advance(s, host))
  {
    hide Draw, ShowFrom;
    var t := s.(slideTimer := None);
    var slide := SlideAt(t);
    if slide.Some? && t.current.value.page + 1 < t.current.value.pages && Showable(t, slide.value) {
      DrawBooks(t, slide.value, t.current.value.index, t.now + slide.value.seconds * SECOND, t.current.value.page + 1,
                host);
    } else {
      ShowFromBooks(t, if t.current.None? then 0 else t.current.value.index + 1, host);
    }
  }

  lemma DrawOrLeaveBooks(s: Screen, slide: C.Slide, index: nat, endsAt: int, page: nat, host: Host)
    ensures SameBooks(s, DrawOrLeave(s, slide, index, endsAt, page, host))
  {
    hide Draw, Advance;
    DrawBooks(s, slide, index, endsAt, page, host);
    AdvanceBooks(s.(current := None), host);
  }

  lemma PictureChangedBooks(s: Screen, key: Text, host: Host)
    ensures SameBooks(s, PictureChanged(s, key, host))
  {
    hide DrawOrLeave, Advance, ShowFrom;
    if s.content.Some? {
      if s.current.None? {
        ShowFromBooks(s, 0, host);
      } else {
        AdvanceBooks(s, host);
        if SlideAt(s).Some? {
          DrawOrLeaveBooks(s, SlideAt(s).value, s.current.value.index, s.current.value.endsAt, s.current.value.page,
                           host);
        }
      }
    }
  }

  lemma LedgerSame(s: Screen, t: Screen)
    requires Ledger(s) && SameBooks(s, t)
    ensures Ledger(t)
  {
    forall k | k in t.pictures ensures EntryOk(t, k, t.pictures[k]) {
      assert EntryOk(s, k, s.pictures[k]);
    }
  }

  lemma HeldAre(pictures: map<Text, Entry>, id: nat)
    ensures id in HeldIds(pictures) <==> exists k :: k in pictures && pictures[k].url.Some? && pictures[k].id == id
  {
  }

  /** Letting go of every entry releases each URL held once. */
  lemma ReleaseAllKeeps(s: Screen)
    requires Ledger(s)
    ensures Ledger(ReleaseAll(s))
  {
    var t := ReleaseAll(s);
    assert HeldIds(t.pictures) == {};
    forall id ensures t.released[id] == if id in t.handed then 1 else 0 {
      if id in HeldIds(s.pictures) {
        var k :| k in s.pictures && s.pictures[k].url.Some? && s.pictures[k].id == id;
        assert EntryOk(s, k, s.pictures[k]);
      }
    }
  }

  lemma LetGoKeeps(s: Screen, refs: map<Text, C.PictureRef>)
    requires Ledger(s)
    ensures Ledger(LetGo(s, refs))
  {
    var t := LetGo(s, refs);
    forall k | k in t.pictures ensures EntryOk(t, k, t.pictures[k]) {
      assert EntryOk(s, k, s.pictures[k]);
    }
    var gone := Unwanted(s.pictures, refs);
    forall id ensures t.released[id] == if id in t.handed && id !in HeldIds(t.pictures) then 1 else 0 {
      if id in HeldIds(gone) {
        var k :| k in gone && gone[k].url.Some? && gone[k].id == id;
        assert k in s.pictures && s.pictures[k].id == id && EntryOk(s, k, s.pictures[k]);
        assert id in HeldIds(s.pictures);
        assert id !in HeldIds(t.pictures);
      } else if id in HeldIds(s.pictures) {
        var k :| k in s.pictures && s.pictures[k].url.Some? && s.pictures[k].id == id;
        HeldAre(gone, id);
        assert k in gone <==> k !in refs;
        assert k in t.pictures && t.pictures[k].id == id;
      } else {
        HeldAre(t.pictures, id);
        assert forall k :: k in t.pictures ==> t.pictures[k] == s.pictures[k];
      }
    }
  }

  lemma AskKeeps(s: Screen, key: Text, ref: C.PictureRef, host: Host)
    requires Ledger(s) && AsksAgain(s, key) && !s.destroyed
    ensures Ledger(Ask(s, key, ref, host))
  {
    var t := Ask(s, key, ref, host);
    forall k | k in t.pictures ensures EntryOk(t, k, t.pictures[k]) {
      if k != key {
        assert EntryOk(s, k, s.pictures[k]);
      }
    }
    forall j, k | j in t.pictures && k in t.pictures && j != k ensures t.pictures[j].id != t.pictures[k].id {
      assert j != key ==> EntryOk(s, j, s.pictures[j]);
      assert k != key ==> EntryOk(s, k, s.pictures[k]);
    }
    assert key in s.pictures ==> EntryOk(s, key, s.pictures[key]);
    forall id ensures id in HeldIds(t.pictures) <==> id in HeldIds(s.pictures) {
      if id in HeldIds(s.pictures) {
        var k :| k in s.pictures && s.pictures[k].url.Some? && s.pictures[k].id == id;
        assert k != key && k in t.pictures && t.pictures[k] == s.pictures[k];
      }
      if id in HeldIds(t.pictures) {
        var k :| k in t.pictures && t.pictures[k].url.Some? && t.pictures[k].id == id;
        assert k != key && k in s.pictures && t.pictures[k] == s.pictures[k];
      }
    }
  }

  lemma {:induction false} AskWantedKeeps(s: Screen, keys: seq<Text>, refs: map<Text, C.PictureRef>, host: Host)
    requires Ledger(s) && !s.destroyed
    ensures Ledger(AskWanted(s, keys, refs, host)) && !AskWanted(s, keys, refs, host).destroyed
  {
    hide Ledger, Ask, AsksAgain;
    if keys != [] {
      AskWantedKeeps(s, keys[..|keys| - 1], refs, host);
      var t := AskWanted(s, keys[..|keys| - 1], refs, host);
      var key := keys[|keys| - 1];
      if key in refs && AsksAgain(t, key) {
        AskKeeps(t, key, refs[key], host);
        AskNotDestroyed(t, key, refs[key], host);
      }
    }
  }

  lemma AskNotDestroyed(s: Screen, key: Text, ref: C.PictureRef, host: Host)
    ensures Ask(s, key, ref, host).destroyed == s.destroyed
  {
  }

  /** An arrival is kept by the entry that waits for it, and otherwise released on the spot. */
  lemma SettleLedger(s: Screen, id: nat, url: Option<Text>, host: Host)
    requires Ledger(s) && id in s.pending
    ensures Ledger(Settle(s, id, url, host))
  {
    hide PictureChanged;
    var key := s.pending[id].key;
    var t := s.(pending := s.pending - {id}, handed := if url.Some? then s.handed + {id} else s.handed);
    forall k | k in s.pictures && s.pictures[k].url.Some? ensures s.pictures[k].id != id {
      assert EntryOk(s, k, s.pictures[k]);
    }
    if s.destroyed || key !in s.pictures || s.pictures[key].id != id {
      var r := if url.Some? then t.(released := t.released + multiset{id}) else t;
      forall k | k in r.pictures ensures EntryOk(r, k, r.pictures[k]) {
        assert EntryOk(s, k, s.pictures[k]);
      }
      assert Ledger(r);
    } else {
      var entry := s.pictures[key].(state := if url.None? then Failed else Ready, url := url);
      var r := t.(pictures := t.pictures[key := entry]);
      ArrivalKept(s, r, key, id, url);
      PictureChangedBooks(r, key, host);
      LedgerSame(r, PictureChanged(r, key, host));
    }
  }

  lemma ArrivalKept(s: Screen, r: Screen, key: Text, id: nat, url: Option<Text>)
    requires Ledger(s) && id in s.pending && !s.destroyed && key in s.pictures && s.pictures[key].id == id
             && id !in HeldIds(s.pictures)
    requires r == s.(pending := s.pending - {id}, handed := if url.Some? then s.handed + {id} else s.handed,
                     pictures := s.pictures[key := s.pictures[key].(state := if url.None? then Failed else Ready,
                                                                    url := url)])
    ensures Ledger(r)
  {
    assert EntryOk(s, key, s.pictures[key]);
    forall k | k in r.pictures ensures EntryOk(r, k, r.pictures[k]) {
      assert EntryOk(s, k, s.pictures[k]);
    }
    forall j ensures j in HeldIds(r.pictures) <==> j in HeldIds(s.pictures) || (j == id && url.Some?) {
      if j in HeldIds(s.pictures) {
        var k :| k in s.pictures && s.pictures[k].url.Some? && s.pictures[k].id == j;
        assert k != key && k in r.pictures && r.pictures[k] == s.pictures[k];
      }
      if j in HeldIds(r.pictures) {
        var k :| k in r.pictures && r.pictures[k].url.Some? && r.pictures[k].id == j;
        if k != key {
          assert k in s.pictures && s.pictures[k] == r.pictures[k];
        }
      }
      if j == id && url.Some? {
        assert r.pictures[key].id == j && r.pictures[key].url.Some?;
      }
    }
  }

  /** A picture the browser cannot show is released, once. */
  lemma PictureFailedLedger(s: Screen, ref: C.PictureRef, host: Host)
    requires Ledger(s)
    ensures Ledger(PictureFailed(s, ref, host))
  {
    hide PictureChanged, KeyOf;
    var key := KeyOf(ref);
    if key in s.pictures && s.pictures[key].state.Ready? {
      var e := s.pictures[key];
      assert EntryOk(s, key, e);
      var t := Release(s, e);
      var r := t.(pictures := t.pictures[key := e.(state := Failed, url := None)]);
      forall k | k in r.pictures ensures EntryOk(r, k, r.pictures[k]) {
        assert EntryOk(s, k, s.pictures[k]);
      }
      assert e.id in HeldIds(s.pictures);
      forall j ensures j in HeldIds(r.pictures) <==> j in HeldIds(s.pictures) && j != e.id {
        if j in HeldIds(s.pictures) && j != e.id {
          var k :| k in s.pictures && s.pictures[k].url.Some? && s.pictures[k].id == j;
          assert k != key && k in r.pictures && r.pictures[k] == s.pictures[k];
        }
        if j in HeldIds(r.pictures) {
          var k :| k in r.pictures && r.pictures[k].url.Some? && r.pictures[k].id == j;
          assert k != key && k in s.pictures && s.pictures[k] == r.pictures[k];
        }
      }
      assert Ledger(r);
      PictureChangedBooks(r, key, host);
      LedgerSame(r, PictureChanged(r, key, host));
    }
  }

  lemma ShowLedger(s: Screen, next: C.ScreenContent, unit: int, host: Host)
    requires Ledger(s)
    ensures Ledger(Show(s, next, unit, host))
  {
    hide Ledger, Draw, ShowFrom, KeptAt, LetGo, AskWanted;
    if !s.destroyed {
      var u := Refit(s.(content := Some(next), unit := unit), host);
      LedgerSame(s, u);
      var refs := WantedRefs(next.rotation);
      LetGoKeeps(u, refs);
      LetGoNotDestroyed(u, refs);
      AskWantedKeeps(LetGo(u, refs), WantedKeys(next.rotation), refs, host);
      var t := Taken(s, next, unit, host);
      var kept := KeptAt(t, next, s.current);
      if kept.Some? {
        KeptShowable(t, next, s.current);
        DrawBooks(t, next.rotation[kept.value], kept.value, s.current.value.endsAt, s.current.value.page, host);
      } else {
        ShowFromBooks(ClearSlideTimer(t.(current := None)), 0, host);
      }
      LedgerSame(t, Show(s, next, unit, host));
    }
  }

  lemma LetGoNotDestroyed(s: Screen, refs: map<Text, C.PictureRef>)
    ensures LetGo(s, refs).destroyed == s.destroyed
  {
  }

  lemma KeptShowable(s: Screen, next: C.ScreenContent, previous: Option<Current>)
    ensures KeptAt(s, next, previous).Some? ==> Drawable(s.pictures, next.rotation[KeptAt(s, next, previous).value])
  {
  }

  lemma StepLedger(s: Screen, step: Step, host: Host)
    requires Ledger(s)
    ensures Ledger(Do(s, step, host))
  {
    hide Ledger, Show, Settle, PictureFailed, Advance, DrawOrLeave, ShowFrom;
    var t := s.(now := step.at);
    assert Ledger(t) by { LedgerNow(s, step.at); }
    match step {
      case ShowStep(_, next, unit) => ShowLedger(t, next, unit, host);
      case MessageStep(_, unit) => MessageLedger(t, unit);
      case DestroyStep(_) => DestroyLedger(t);
      case SettleStep(_, id, url) => if id in t.pending { SettleLedger(t, id, url, host); }
      case ImageErrorStep(_, ref) => PictureFailedLedger(t, ref, host);
      case SlideTimerStep(_, handle) =>
        AdvanceBooks(t.(timers := t.timers - {handle}), host);
        LedgerSame(t, TimerFires(t, handle, host));
      case MinuteTimerStep(_) =>
        TickBooks(t, host);
        LedgerSame(t, Tick(t, host));
      case ResizeStep(_, unit) => LedgerSame(t, Resize(t, unit, host));
    }
  }

  lemma LedgerNow(s: Screen, now: int)
    requires Ledger(s)
    ensures Ledger(s.(now := now))
  {
    forall k | k in s.pictures ensures EntryOk(s.(now := now), k, s.pictures[k]) {
      assert EntryOk(s, k, s.pictures[k]);
    }
  }

  lemma MessageLedger(s: Screen, unit: int)
    requires Ledger(s)
    ensures Ledger(Message(s, unit))
  {
    hide Ledger, ReleaseAll;
    if !s.destroyed {
      var t := ClearSlideTimer(s.(content := None, current := None));
      LedgerSame(s, t);
      ReleaseAllKeeps(t);
      LedgerSame(ReleaseAll(t), ReleaseAll(t).(unit := unit));
    }
  }

  lemma DestroyLedger(s: Screen)
    requires Ledger(s)
    ensures Ledger(Destroy(s))
  {
    hide Ledger;
    if !s.destroyed {
      var t := ClearSlideTimer(s);
      LedgerSame(s, t);
      ReleaseAllKeeps(t);
      LedgerEnded(ReleaseAll(t), Destroy(s));
    }
  }

  lemma LedgerEnded(s: Screen, t: Screen)
    requires Ledger(s) && s.pictures == map[]
    requires t == s.(destroyed := true, minuteTimer := None, content := None, current := None)
    ensures Ledger(t)
  {
  }

  lemma TickBooks(s: Screen, host: Host)
    ensures SameBooks(s, Tick(s, host))
  {
    hide ShowFrom, DrawOrLeave, LookOf;
    var t := s.(minuteTimer := None);
    if !s.destroyed && s.content.Some? {
      if s.current.None? {
        ShowFromBooks(t, 0, host);
      } else if SlideAt(t).Some? {
        DrawOrLeaveBooks(t, SlideAt(t).value, t.current.value.index, t.current.value.endsAt, t.current.value.page,
                         host);
      }
    }
  }

  lemma {:induction false} RunLedger(s: Screen, steps: seq<Step>, host: Host)
    requires Ledger(s)
    ensures Ledger(Run(s, steps, host))
  {
    hide Ledger, Do;
    if steps != [] {
      RunLedger(s, steps[..|steps| - 1], host);
      StepLedger(Run(s, steps[..|steps| - 1], host), steps[|steps| - 1], host);
    }
  }

  /**
   Over every interleaving of documents, messages, late arrivals, image errors and timers, a URL handed back is held by
   exactly one entry that is ready, or has been released exactly once, and not both; and what was never handed back is
   never released.
   */
  lemma UrlsConserved(now: int, unit: int, steps: seq<Step>, host: Host, id: nat)
    ensures var r := Run(Mounted(now, unit), steps, host);
            && (id in r.handed
                ==> (r.released[id] == 1 && id !in HeldIds(r.pictures))
                    || (r.released[id] == 0 && id in HeldIds(r.pictures)))
            && (id !in r.handed ==> r.released[id] == 0 && id !in HeldIds(r.pictures))
            && (forall j, k ::
                  j in r.pictures && k in r.pictures && r.pictures[j].id == id && r.pictures[k].id == id ==> j == k)
  {
    hide Run;
    var s := Mounted(now, unit);
    assert HeldIds(s.pictures) == {};
    RunLedger(s, steps, host);
    var r := Run(s, steps, host);
    if id in HeldIds(r.pictures) {
      var k :| k in r.pictures && r.pictures[k].url.Some? && r.pictures[k].id == id;
      assert EntryOk(r, k, r.pictures[k]);
    }
  }

  /** After `destroy` every URL ever handed back, before it or after, has been released exactly once. */
  lemma AllReleasedAfterDestroy(now: int, unit: int, steps: seq<Step>, host: Host, id: nat)
    requires Run(Mounted(now, unit), steps, host).destroyed
    ensures var r := Run(Mounted(now, unit), steps, host);
            r.released[id] == if id in r.handed then 1 else 0
  {
    hide Run;
    var s := Mounted(now, unit);
    assert HeldIds(s.pictures) == {};
    RunLedger(s, steps, host);
    var r := Run(s, steps, host);
    assert HeldIds(r.pictures) == {};
  }

  // ---------- What is on screen ----------

  /**
   A page on screen is a page of a slide of the document, at its place and with its id; a picture slide on screen has
   its URL; and its timer is armed for the end of its stay, or the slide's `until` when that comes first.
   */
  ghost predicate OnScreen(s: Screen) {
    s.current.Some? ==>
      && SlideAt(s).Some? && SlideAt(s).value.id == s.current.value.id && Drawable(s.pictures, SlideAt(s).value)
      && s.current.value.page < s.current.value.pages
      && s.slideTimer.Some? && s.slideTimer.value in s.timers
      && s.timers[s.slideTimer.value] == LeavesAt(SlideAt(s).value, s.current.value.endsAt)
  }

  ghost predicate TimersOk(s: Screen) {
    && (forall h :: h in s.timers ==> h < s.armed && s.now <= s.timers[h])
    && (s.slideTimer.Some? ==> s.slideTimer.value in s.timers && s.current.Some?)
  }

  ghost predicate MinuteOk(s: Screen) {
    && (s.destroyed ==> s.content.None? && s.current.None? && s.minuteTimer.None?)
    && (s.content.Some? ==> s.minuteTimer.Some? && Timed(s.content.value))
    && (s.minuteTimer.Some? ==> s.now <= s.minuteTimer.value <= s.now + MINUTE)
  }

  ghost predicate Inv(s: Screen) {
    Ledger(s) && OnScreen(s) && TimersOk(s) && MinuteOk(s)
  }

  /** The same but for what is on screen and its timer. */
  ghost predicate SameRest(s: Screen, r: Screen) {
    SameBooks(s, r) && r.content == s.content && r.minuteTimer == s.minuteTimer && r.unit == s.unit
  }

  /** The slide timer, when there is one, is among those armed, and none is late. */
  ghost predicate TimersArmed(s: Screen) {
    && (forall h :: h in s.timers ==> h < s.armed && s.now <= s.timers[h])
    && (s.slideTimer.Some? ==> s.slideTimer.value in s.timers)
  }

  /** A slide about to be drawn whose stay is not over. */
  lemma DrawOnScreen(s: Screen, slide: C.Slide, index: nat, endsAt: int, page: nat, host: Host)
    requires GoodHost(host) && TimersArmed(s) && Drawable(s.pictures, slide) && s.content.Some?
    requires index < |s.content.value.rotation| && s.content.value.rotation[index] == slide
    requires s.now <= LeavesAt(slide, endsAt)
    requires s.current.Some? && s.current.value.id == slide.id && s.current.value.page == page
             ==> page < s.current.value.pages
    ensures var r := Draw(s, slide, index, endsAt, page, host);
            && OnScreen(r) && TimersOk(r) && SameRest(s, r)
            && r.current.Some? && r.current.value.index == index && r.current.value.id == slide.id
            && r.current.value.endsAt == endsAt
            && r.slideTimer == Some(s.armed) && r.armed == s.armed + 1
            && var others := if s.slideTimer.Some? then s.timers - {s.slideTimer.value} else s.timers;
               r.timers == others[s.armed := LeavesAt(slide, endsAt)]
  {
    hide LookOf, UntilOf, UrlOf;
    DrawBooks(s, slide, index, endsAt, page, host);
    var r := Draw(s, slide, index, endsAt, page, host);
    assert s.pictures == r.pictures;
  }

  lemma ShowFromOnScreen(s: Screen, from: nat, host: Host)
    requires GoodHost(host) && TimersArmed(s) && s.content.Some?
    requires Timed(s.content.value)
    requires s.current.Some? ==> s.current.value.page < s.current.value.pages
    ensures OnScreen(ShowFrom(s, from, host)) && TimersOk(ShowFrom(s, from, host))
            && SameRest(s, ShowFrom(s, from, host))
  {
    hide Draw, FindFrom, UntilOf, UrlOf, OnScreen;
    var rotation := s.content.value.rotation;
    var index := FindFrom(s, rotation, from, 0);
    if index.Some? {
      var slide := rotation[index.value];
      DrawOnScreen(s, slide, index.value, s.now + slide.seconds * SECOND, 0, host);
      assert ShowFrom(s, from, host) == Draw(s, slide, index.value, s.now + slide.seconds * SECOND, 0, host);
    } else {
      NothingOnScreen(s);
      assert ShowFrom(s, from, host) == ClearSlideTimer(s).(current := None);
    }
  }

  lemma NothingOnScreen(s: Screen)
    requires TimersArmed(s)
    ensures OnScreen(ClearSlideTimer(s).(current := None)) && TimersOk(ClearSlideTimer(s).(current := None))
  {
  }

  /** A page is left: the next is on screen, or nothing is. */
  lemma AdvanceOnScreen(s: Screen, host: Host)
    requires GoodHost(host) && OnScreenBut(s) && (forall h :: h in s.timers ==> h < s.armed && s.now <= s.timers[h])
    requires s.content.Some? ==> Timed(s.content.value)
    requires s.content.None? ==> s.current.None?
    ensures var r := Advance(s, host);
            OnScreen(r) && TimersOk(r) && SameRest(s, r)
  {
    hide Draw, ShowFrom, UntilOf, UrlOf;
    var t := s.(slideTimer := None);
    if t.content.Some? {
      var slide := SlideAt(t);
      if slide.Some? && t.current.value.page + 1 < t.current.value.pages && Showable(t, slide.value) {
        DrawOnScreen(t, slide.value, t.current.value.index, t.now + slide.value.seconds * SECOND,
                     t.current.value.page + 1, host);
      } else {
        ShowFromOnScreen(t, if t.current.None? then 0 else t.current.value.index + 1, host);
      }
    } else {
      ShowFromNothing(t, 0, host);
    }
  }

  lemma ShowFromNothing(s: Screen, from: nat, host: Host)
    requires s.content.None?
    ensures ShowFrom(s, from, host) == s
  {
  }

  /** What is on screen when its timer is not accounted for. */
  ghost predicate OnScreenBut(s: Screen) {
    s.current.Some?
    ==> SlideAt(s).Some? && SlideAt(s).value.id == s.current.value.id && s.current.value.page < s.current.value.pages
  }

  /** A page drawn again where it is keeps its stay. */
  lemma RedrawOnScreen(s: Screen, host: Host)
    requires GoodHost(host) && OnScreenBut(s) && TimersArmed(s) && s.current.Some?
             && Drawable(s.pictures, SlideAt(s).value)
    requires s.now <= LeavesAt(SlideAt(s).value, s.current.value.endsAt)
    ensures var r := DrawOrLeave(s, SlideAt(s).value, s.current.value.index, s.current.value.endsAt,
                                 s.current.value.page, host);
            && OnScreen(r) && TimersOk(r) && SameRest(s, r)
            && r.current.Some? && r.current.value.index == s.current.value.index
            && r.current.value.id == s.current.value.id
            && r.current.value.endsAt == s.current.value.endsAt
            && r.slideTimer == Some(s.armed)
            && r.timers.Keys
               == (if s.slideTimer.Some? then s.timers.Keys - {s.slideTimer.value} else s.timers.Keys) + {s.armed}
  {
    hide Draw, UntilOf, UrlOf, Advance;
    DrawOnScreen(s, SlideAt(s).value, s.current.value.index, s.current.value.endsAt, s.current.value.page, host);
  }

  /** Whether a change of a picture takes the page on screen away: it is a picture slide that has just lost it. */
  predicate LosesPicture(s: Screen, key: Text) {
    SlideAt(s).Some? && SlideAt(s).value.body.Picture? && KeyOf(SlideAt(s).value.body.picture) == key
    && UrlOf(s.pictures, SlideAt(s).value.body.picture).None?
  }

  lemma PictureChangedOnScreen(s: Screen, key: Text, host: Host)
    requires GoodHost(host) && OnScreenBut(s) && TimersArmed(s) && MinuteOk(s)
    requires s.current.Some?
             ==> s.slideTimer.Some?
                 && s.timers[s.slideTimer.value] == LeavesAt(SlideAt(s).value, s.current.value.endsAt)
    requires s.current.Some? && !LosesPicture(s, key) ==> Drawable(s.pictures, SlideAt(s).value)
    requires s.slideTimer.Some? ==> s.current.Some?
    ensures var r := PictureChanged(s, key, host);
            && OnScreen(r) && TimersOk(r) && SameRest(s, r)
            && (s.current.Some? && !LosesPicture(s, key) ==>
                  && r.current.Some? && r.current.value.index == s.current.value.index
                  && r.current.value.id == s.current.value.id
                  && r.current.value.endsAt == s.current.value.endsAt)
  {
    hide DrawOrLeave, Advance, ShowFrom, UrlOf, UntilOf, KeyOf;
    PictureChangedBooks(s, key, host);
    if s.content.Some? {
      if s.current.None? {
        ShowFromOnScreen(s, 0, host);
      } else if LosesPicture(s, key) {
        AdvanceOnScreen(s, host);
      } else {
        RedrawOnScreen(s, host);
      }
    }
  }

  // ---------- Every run keeps it ----------

  lemma InvNow(s: Screen, step: Step)
    requires Inv(s) && Possible(s, step)
    ensures Inv(s.(now := step.at))
  {
    hide Ledger, UntilOf;
    LedgerNow(s, step.at);
  }

  lemma SettleKeeps(s: Screen, id: nat, url: Option<Text>, host: Host)
    requires GoodHost(host) && Inv(s) && id in s.pending
    ensures Inv(Settle(s, id, url, host))
    ensures s.current.Some? ==> SamePage(s, Settle(s, id, url, host))
  {
    hide PictureChanged, UntilOf, KeyOf;
    SettleLedger(s, id, url, host);
    var key := s.pending[id].key;
    var t := s.(pending := s.pending - {id}, handed := if url.Some? then s.handed + {id} else s.handed);
    if s.destroyed || key !in s.pictures || s.pictures[key].id != id {
    } else {
      var entry := s.pictures[key].(state := if url.None? then Failed else Ready, url := url);
      var r := t.(pictures := t.pictures[key := entry]);
      assert EntryOk(s, key, s.pictures[key]);
      hide Ledger;
      PictureChangedOnScreen(r, key, host);
      PictureChangedBooks(r, key, host);
    }
  }

  /** The page on screen is the same page's slide, and its stay ends when it did. */
  ghost predicate SamePage(s: Screen, r: Screen)
    requires s.current.Some?
  {
    r.current.Some? && r.current.value.id == s.current.value.id && r.current.value.endsAt == s.current.value.endsAt
  }

  /** An image error is of the picture slide on screen. */
  predicate BreaksCurrent(s: Screen, ref: C.PictureRef) {
    SlideAt(s).Some? && SlideAt(s).value.body.Picture? && KeyOf(SlideAt(s).value.body.picture) == KeyOf(ref)
  }

  lemma PictureFailedKeeps(s: Screen, ref: C.PictureRef, host: Host)
    requires GoodHost(host) && Inv(s)
    ensures Inv(PictureFailed(s, ref, host))
    ensures s.current.Some? && !BreaksCurrent(s, ref) ==> SamePage(s, PictureFailed(s, ref, host))
  {
    hide PictureChanged, UntilOf, KeyOf;
    PictureFailedLedger(s, ref, host);
    var key := KeyOf(ref);
    if key in s.pictures && s.pictures[key].state.Ready? {
      var t := Release(s, s.pictures[key]);
      var r := t.(pictures := t.pictures[key := s.pictures[key].(state := Failed, url := None)]);
      hide Ledger;
      PictureChangedOnScreen(r, key, host);
      PictureChangedBooks(r, key, host);
    }
  }

  lemma TickKeeps(s: Screen, host: Host)
    requires GoodHost(host) && Inv(s) && s.minuteTimer == Some(s.now)
    ensures Inv(Tick(s, host))
    ensures s.current.Some? ==> SamePage(s, Tick(s, host))
  {
    hide DrawOrLeave, ShowFrom, UntilOf, LookOf, Ledger, UrlOf;
    TickBooks(s, host);
    LedgerSame(s, Tick(s, host));
    var t := s.(minuteTimer := None);
    if !s.destroyed && s.content.Some? {
      if s.current.None? {
        ShowFromOnScreen(t, 0, host);
      } else {
        RedrawOnScreen(t, host);
      }
    }
  }

  lemma ResizeKeeps(s: Screen, unit: int, host: Host)
    requires GoodHost(host) && Inv(s)
    ensures Inv(Resize(s, unit, host))
    ensures s.current.Some? ==> SamePage(s, Resize(s, unit, host))
  {
    hide UntilOf, Ledger, UrlOf;
    LedgerSame(s, Resize(s, unit, host));
  }

  lemma TimerKeeps(s: Screen, handle: nat, host: Host)
    requires GoodHost(host) && Inv(s) && handle in s.timers && s.timers[handle] == s.now
    ensures Inv(TimerFires(s, handle, host))
  {
    hide Advance, UntilOf, Ledger, UrlOf;
    var t := s.(timers := s.timers - {handle});
    AdvanceBooks(t, host);
    LedgerSame(s, TimerFires(s, handle, host));
    AdvanceOnScreen(t, host);
  }

  lemma MessageKeeps(s: Screen, unit: int)
    requires Inv(s)
    ensures Inv(Message(s, unit)) && Inv(Destroy(s))
  {
    hide Ledger, UntilOf, HeldIds;
    MessageLedger(s, unit);
    DestroyLedger(s);
  }

  /** What `show` has done before it comes to the slide: the timers and the previous page are as they were. */
  lemma TakenShape(s: Screen, next: C.ScreenContent, unit: int, host: Host)
    requires GoodHost(host) && TimersArmed(s)
    ensures var t := Taken(s, next, unit, host);
            && t.content == Some(next) && t.timers == s.timers && t.slideTimer == s.slideTimer && t.armed == s.armed
            && t.now == s.now
            && t.minuteTimer == s.minuteTimer && t.destroyed == s.destroyed && t.unit == unit
            && (t.current.Some? <==> s.current.Some?)
            && (t.current.Some?
                ==> t.current.value.id == s.current.value.id && t.current.value.page < t.current.value.pages)
  {
    hide AskWanted, LetGo, WantedKeys, WantedRefs;
    var u := Refit(s.(content := Some(next), unit := unit), host);
    var refs := WantedRefs(next.rotation);
    AskWantedShape(LetGo(u, refs), WantedKeys(next.rotation), refs, host);
    LetGoShape(u, refs);
  }

  ghost predicate SameButBooks(s: Screen, t: Screen) {
    && t.content == s.content && t.timers == s.timers && t.slideTimer == s.slideTimer && t.armed == s.armed
    && t.now == s.now
    && t.minuteTimer == s.minuteTimer && t.destroyed == s.destroyed && t.unit == s.unit && t.current == s.current
  }

  lemma LetGoShape(s: Screen, refs: map<Text, C.PictureRef>)
    ensures SameButBooks(s, LetGo(s, refs))
  {
  }

  lemma {:induction false} AskWantedShape(s: Screen, keys: seq<Text>, refs: map<Text, C.PictureRef>, host: Host)
    ensures SameButBooks(s, AskWanted(s, keys, refs, host))
  {
    hide AsksAgain;
    if keys != [] {
      AskWantedShape(s, keys[..|keys| - 1], refs, host);
    }
  }

  lemma ShowKeeps(s: Screen, next: C.ScreenContent, unit: int, host: Host)
    requires GoodHost(host) && Inv(s) && Timed(next) && !s.destroyed
    ensures Inv(Show(s, next, unit, host))
    ensures KeptAt(Taken(s, next, unit, host), next, s.current).Some? ==> SamePage(s, Show(s, next, unit, host))
  {
    hide Ledger, Taken, Draw, ShowFrom, UntilOf, UrlOf, KeptAt;
    ShowLedger(s, next, unit, host);
    TakenShape(s, next, unit, host);
    var t := Taken(s, next, unit, host);
    var kept := KeptAt(t, next, s.current);
    if kept.Some? {
      KeptShowable(t, next, s.current);
      KeptStays(t, next, s.current);
      DrawOnScreen(t, next.rotation[kept.value], kept.value, s.current.value.endsAt, s.current.value.page, host);
    } else {
      ShowFromOnScreen(ClearSlideTimer(t.(current := None)), 0, host);
    }
  }

  lemma KeptStays(s: Screen, next: C.ScreenContent, previous: Option<Current>)
    requires KeptAt(s, next, previous).Some? && previous.value.endsAt >= s.now
    ensures s.now <= LeavesAt(next.rotation[KeptAt(s, next, previous).value], previous.value.endsAt)
  {
  }

  /** No step breaks the invariant. */
  lemma StepKeeps(s: Screen, step: Step, host: Host)
    requires GoodHost(host) && Inv(s) && Possible(s, step)
    ensures Inv(Do(s, step, host))
  {
    hide Inv, Show, Message, Destroy, Settle, PictureFailed, TimerFires, Tick, Resize;
    InvNow(s, step);
    var t := s.(now := step.at);
    match step {
      case ShowStep(_, next, unit) =>
        if t.destroyed { ShowDestroyed(t, next, unit, host); } else { ShowKeeps(t, next, unit, host); }
      case MessageStep(_, unit) => MessageKeeps(t, unit);
      case DestroyStep(_) => MessageKeeps(t, 0);
      case SettleStep(_, id, url) => SettleKeeps(t, id, url, host);
      case ImageErrorStep(_, ref) => PictureFailedKeeps(t, ref, host);
      case SlideTimerStep(_, handle) => TimerKeeps(t, handle, host);
      case MinuteTimerStep(_) => TickKeeps(t, host);
      case ResizeStep(_, unit) => ResizeKeeps(t, unit, host);
    }
  }

  lemma ShowDestroyed(s: Screen, next: C.ScreenContent, unit: int, host: Host)
    requires s.destroyed
    ensures Show(s, next, unit, host) == s
  {
  }

  lemma MountedKeeps(now: int, unit: int)
    ensures Inv(Mounted(now, unit))
  {
    assert HeldIds(Mounted(now, unit).pictures) == {};
  }

  lemma {:induction false} RunKeeps(now: int, unit: int, steps: seq<Step>, host: Host)
    requires GoodHost(host) && PossibleRun(Mounted(now, unit), steps, host)
    ensures Inv(Run(Mounted(now, unit), steps, host))
  {
    hide Inv, Do, Possible, Mounted;
    if steps == [] {
      MountedKeeps(now, unit);
    } else {
      RunKeeps(now, unit, steps[..|steps| - 1], host);
      StepKeeps(Run(Mounted(now, unit), steps[..|steps| - 1], host), steps[|steps| - 1], host);
    }
  }

  /**
   Over every run: a page on screen is of the document's slide at its place and with its id, a picture slide on screen
   has its URL, and its timer is armed.
   */
  lemma ScreenHolds(now: int, unit: int, steps: seq<Step>, host: Host)
    requires GoodHost(host) && PossibleRun(Mounted(now, unit), steps, host)
    ensures var r := Run(Mounted(now, unit), steps, host);
            r.current.Some? ==>
              && r.content.Some? && r.current.value.index < |r.content.value.rotation|
              && r.content.value.rotation[r.current.value.index].id == r.current.value.id
              && Drawable(r.pictures, r.content.value.rotation[r.current.value.index])
              && r.slideTimer.Some? && r.slideTimer.value in r.timers
  {
    hide Run, PossibleRun, Mounted, Ledger, UntilOf, UrlOf;
    RunKeeps(now, unit, steps, host);
  }

  /**
   Over every run, and whatever step comes next: where an answer, an image error or the minute's tick draws the slide on
   screen again, `draw` makes something of it and does not leave it. Only the error that takes its picture draws
   another.
   */
  lemma DrawNeverLeaves(now: int, unit: int, steps: seq<Step>, step: Step, host: Host)
    requires GoodHost(host) && PossibleRun(Mounted(now, unit), steps, host)
             && Possible(Run(Mounted(now, unit), steps, host), step)
    requires step.SettleStep? || step.ImageErrorStep? || step.MinuteTimerStep?
    ensures var s := Run(Mounted(now, unit), steps, host);
            var d := Decides(s, step, host);
            d.current.Some? && !Breaks(s, step) ==>
              && SlideAt(d).Some? && Drawable(d.pictures, SlideAt(d).value)
              && forall index: nat, endsAt: int, page: nat ::
                   DrawOrLeave(d, SlideAt(d).value, index, endsAt, page, host)
                   == Draw(d, SlideAt(d).value, index, endsAt, page, host)
  {
    hide Run, PossibleRun, Mounted, Draw, Advance, Drawable, Inv, Decides, Breaks;
    RunKeeps(now, unit, steps, host);
    StillDrawable(Run(Mounted(now, unit), steps, host), step, host);
  }

  lemma StillDrawable(s: Screen, step: Step, host: Host)
    requires Inv(s) && (step.ImageErrorStep? || step.MinuteTimerStep? || (step.SettleStep? && step.id in s.pending))
    ensures var d := Decides(s, step, host);
            d.content == s.content && d.current == s.current
            && (s.current.Some? && !Breaks(s, step) ==>
                  d.content.Some? && SlideAt(d).Some? && SlideAt(d) == SlideAt(s)
                  && Drawable(d.pictures, SlideAt(d).value))
  {
    hide KeyOf, UntilOf;
    if step.SettleStep? && s.pending[step.id].key in s.pictures {
      assert EntryOk(s, s.pending[step.id].key, s.pictures[s.pending[step.id].key]);
    }
  }

  /**
   Over every run: a page on screen has not outstayed the end fixed when it came on, nor its slide's `until`, and its
   timer is armed for the earlier of the two.
   */
  lemma NeverOutstays(now: int, unit: int, steps: seq<Step>, host: Host)
    requires GoodHost(host) && PossibleRun(Mounted(now, unit), steps, host)
    ensures var r := Run(Mounted(now, unit), steps, host);
            r.current.Some? ==>
              && SlideAt(r).Some? && r.slideTimer.Some? && r.slideTimer.value in r.timers
              && r.timers[r.slideTimer.value] == LeavesAt(SlideAt(r).value, r.current.value.endsAt)
              && r.now <= r.current.value.endsAt
              && (UntilOf(SlideAt(r).value).Some? ==> r.now <= UntilOf(SlideAt(r).value).value)
  {
    hide Run, PossibleRun, Mounted, Ledger, UrlOf;
    RunKeeps(now, unit, steps, host);
  }

  // ---------- A page's stay ----------

  /** The first slide of a rotation with an id. */
  ghost predicate FirstWithId(rotation: seq<C.Slide>, id: Text, i: nat) {
    i < |rotation| && rotation[i].id == id && forall j :: 0 <= j < i ==> rotation[j].id != id
  }

  /** A document has the slide on screen, its time not over and, of a picture slide, its picture there already. */
  ghost predicate Continues(s: Screen, next: C.ScreenContent, at: int) {
    && !s.destroyed && s.current.Some?
    && exists i: nat :: FirstWithId(next.rotation, s.current.value.id, i) && ShowsAt(s, next.rotation[i], at)
  }

  predicate ShowsAt(s: Screen, slide: C.Slide, at: int) {
    && (slide.until.Some? ==> at < TimeOf(slide.until.value))
    && (slide.body.Picture? ==> UrlOf(s.pictures, slide.body.picture).Some?)
  }

  lemma {:induction false} FoundFirst(rotation: seq<C.Slide>, id: Text, from: nat)
    requires from <= |rotation| && forall j :: 0 <= j < from ==> rotation[j].id != id
    ensures IndexOfId(rotation, id, from).Some? ==> FirstWithId(rotation, id, IndexOfId(rotation, id, from).value)
    ensures IndexOfId(rotation, id, from).None? ==> forall i: nat :: !FirstWithId(rotation, id, i)
    decreases |rotation| - from
  {
    if from < |rotation| && rotation[from].id != id {
      FoundFirst(rotation, id, from + 1);
    }
  }

  /** Asking for pictures changes no URL there is. */
  lemma {:induction false} AskedUrls(s: Screen, keys: seq<Text>, refs: map<Text, C.PictureRef>, host: Host,
                                     ref: C.PictureRef)
    ensures UrlOf(AskWanted(s, keys, refs, host).pictures, ref) == UrlOf(s.pictures, ref)
  {
    hide KeyOf;
    if keys != [] {
      AskedUrls(s, keys[..|keys| - 1], refs, host, ref);
    }
  }

  lemma {:induction false} RefWanted(rotation: seq<C.Slide>, i: nat)
    requires i < |rotation| && PictureOf(rotation[i]).Some?
    ensures KeyOf(PictureOf(rotation[i]).value) in WantedRefs(rotation)
  {
    hide KeyOf, PictureOf;
    if i < |rotation| - 1 {
      RefWanted(rotation[..|rotation| - 1], i);
    }
  }

  lemma TakenUrls(s: Screen, next: C.ScreenContent, unit: int, host: Host, i: nat)
    requires i < |next.rotation| && PictureOf(next.rotation[i]).Some?
    ensures var ref := PictureOf(next.rotation[i]).value;
            UrlOf(Taken(s, next, unit, host).pictures, ref) == UrlOf(s.pictures, ref)
  {
    hide KeyOf, AskWanted, WantedRefs, WantedKeys, HeldIds;
    var refs := WantedRefs(next.rotation);
    RefWanted(next.rotation, i);
    var u := Refit(s.(content := Some(next), unit := unit), host);
    AskedUrls(LetGo(u, refs), WantedKeys(next.rotation), refs, host, PictureOf(next.rotation[i]).value);
  }

  lemma TakenShowable(s: Screen, next: C.ScreenContent, unit: int, host: Host, i: nat)
    requires i < |next.rotation|
    ensures Showable(Taken(s, next, unit, host), next.rotation[i]) <==> ShowsAt(s, next.rotation[i], s.now)
  {
    hide Taken, UrlOf;
    TakenNow(s, next, unit, host);
    if PictureOf(next.rotation[i]).Some? {
      TakenUrls(s, next, unit, host, i);
    }
  }

  /** Those are just the documents `show` keeps the page for. */
  lemma KeptIff(s: Screen, next: C.ScreenContent, unit: int, host: Host)
    requires !s.destroyed
    ensures KeptAt(Taken(s, next, unit, host), next, s.current).Some? <==> Continues(s, next, s.now)
  {
    hide Taken, Showable, ShowsAt;
    if s.current.Some? {
      FoundFirst(next.rotation, s.current.value.id, 0);
      forall i | 0 <= i < |next.rotation|
        ensures Showable(Taken(s, next, unit, host), next.rotation[i]) <==> ShowsAt(s, next.rotation[i], s.now)
      {
        TakenShowable(s, next, unit, host, i);
      }
      if Continues(s, next, s.now) {
        var i: nat :| FirstWithId(next.rotation, s.current.value.id, i) && ShowsAt(s, next.rotation[i], s.now);
        assert IndexOfId(next.rotation, s.current.value.id, 0) == Some(i);
      }
      if KeptAt(Taken(s, next, unit, host), next, s.current).Some? {
        var i := KeptAt(Taken(s, next, unit, host), next, s.current).value;
        assert FirstWithId(next.rotation, s.current.value.id, i) && ShowsAt(s, next.rotation[i], s.now);
      }
    }
  }

  /**
   What may take the page on screen away: a slide timer, a document that has its slide no more or cannot show it, a
   message, the end, or its picture breaking.
   */
  ghost predicate LeavesPage(s: Screen, step: Step, host: Host) {
    match step
    case ShowStep(at, next, _) => !Continues(s, next, at)
    case MessageStep(_, _) => true
    case DestroyStep(_) => true
    case SlideTimerStep(_, _) => true
    case ImageErrorStep(_, ref) => BreaksCurrent(s, ref)
    case _ => false
  }

  /** Every other step leaves the page on screen with the end it had. */
  lemma StayKept(s: Screen, step: Step, host: Host)
    requires GoodHost(host) && Inv(s) && Possible(s, step) && s.current.Some? && !LeavesPage(s, step, host)
    ensures SamePage(s, Do(s, step, host))
  {
    hide Inv, Show, Settle, PictureFailed, Tick, Resize, KeptAt, Taken, KeyOf, UrlOf;
    InvNow(s, step);
    var t := s.(now := step.at);
    match step {
      case ShowStep(_, next, unit) =>
        KeptIff(t, next, unit, host);
        ContinuesNow(s, next, step.at);
        ShowKeeps(t, next, unit, host);
      case SettleStep(_, id, url) => SettleKeeps(t, id, url, host);
      case ImageErrorStep(_, ref) => PictureFailedKeeps(t, ref, host);
      case MinuteTimerStep(_) => TickKeeps(t, host);
      case ResizeStep(_, unit) => ResizeKeeps(t, unit, host);
    }
  }

  lemma ContinuesNow(s: Screen, next: C.ScreenContent, at: int)
    ensures Continues(s.(now := at), next, at) <==> Continues(s, next, at)
  {
    hide UrlOf;
  }

  ghost predicate NoneLeaves(s: Screen, steps: seq<Step>, host: Host) {
    steps == []
    || (NoneLeaves(s, steps[..|steps| - 1], host)
        && !LeavesPage(Run(s, steps[..|steps| - 1], host), steps[|steps| - 1], host))
  }

  /**
   However often documents are fetched, pictures come and go, minutes pass and the canvas is fitted again, the page on
   screen keeps the end fixed when it came on, and that end has not passed: nothing stalls the rotation.
   */
  lemma {:induction false} RefreshingNeverStalls(s: Screen, steps: seq<Step>, host: Host)
    requires GoodHost(host) && Inv(s) && s.current.Some? && PossibleRun(s, steps, host) && NoneLeaves(s, steps, host)
    ensures Inv(Run(s, steps, host)) && SamePage(s, Run(s, steps, host))
            && Run(s, steps, host).now <= s.current.value.endsAt
  {
    hide Do, Possible, LeavesPage, Ledger, UrlOf;
    if steps != [] {
      var front := steps[..|steps| - 1];
      RefreshingNeverStalls(s, front, host);
      StepKeeps(Run(s, front, host), steps[|steps| - 1], host);
      StayKept(Run(s, front, host), steps[|steps| - 1], host);
    }
    StayNotOver(Run(s, steps, host));
  }

  lemma StayNotOver(s: Screen)
    requires OnScreen(s) && TimersOk(s)
    ensures s.current.Some? ==> s.now <= s.current.value.endsAt
  {
  }

  // ---------- Which picture is whose ----------

  /** The same picture: of one media file, at one version of it. */
  predicate SamePicture(a: C.PictureRef, b: C.PictureRef) {
    a.mediaFileId == b.mediaFileId && a.version == b.version
  }

  /** A media file id without the character that parts it from the version. */
  predicate PlainId(ref: C.PictureRef) {
    forall i :: 0 <= i < |ref.mediaFileId| ==> ref.mediaFileId[i] != NUL
  }

  /** One's id, that character, and more are the other's id, and the more with the rest is the one's version. */
  ghost predicate Straddles(a: C.PictureRef, b: C.PictureRef) {
    exists more: Text :: b.mediaFileId == a.mediaFileId + [NUL] + more && a.version == more + [NUL] + b.version
  }

  /** Two pictures share a key exactly when they are the same, or an id that has that character straddles the two. */
  lemma KeysSameIff(a: C.PictureRef, b: C.PictureRef)
    ensures KeyOf(a) == KeyOf(b) <==> SamePicture(a, b) || Straddles(a, b) || Straddles(b, a)
    ensures PlainId(a) && PlainId(b) ==> (KeyOf(a) == KeyOf(b) <==> SamePicture(a, b))
  {
    if KeyOf(a) == KeyOf(b) {
      if |a.mediaFileId| <= |b.mediaFileId| {
        KeysStraddle(a, b);
      } else {
        KeysStraddle(b, a);
      }
    }
    StraddledKeys(a, b);
    StraddledKeys(b, a);
  }

  /** Two pictures the parser lets through, of files "a" and "a" with that character, and one key. */
  const ONE_PICTURE := C.PictureRef([97], [], 0, [NUL, 98], [])
  const OTHER_PICTURE := C.PictureRef([97, NUL], [], 0, [98], [])

  /** They share an entry, whatever is held: each is shown with the other's URL. */
  lemma KeysClash(pictures: map<Text, Entry>)
    ensures C.ValidPicture(ONE_PICTURE) && C.ValidPicture(OTHER_PICTURE) && !SamePicture(ONE_PICTURE, OTHER_PICTURE)
    ensures KeyOf(ONE_PICTURE) == KeyOf(OTHER_PICTURE) && UrlOf(pictures, ONE_PICTURE) == UrlOf(pictures, OTHER_PICTURE)
  {
    assert KeyOf(ONE_PICTURE) == [97, NUL, NUL, 98];
    assert KeyOf(OTHER_PICTURE) == [97, NUL, NUL, 98];
  }

  lemma KeysStraddle(a: C.PictureRef, b: C.PictureRef)
    requires KeyOf(a) == KeyOf(b) && |a.mediaFileId| <= |b.mediaFileId|
    ensures SamePicture(a, b) || (Straddles(a, b) && !PlainId(b))
  {
    var n, m := |a.mediaFileId|, |b.mediaFileId|;
    var key := KeyOf(a);
    assert a.mediaFileId == key[..n] && b.mediaFileId == key[..m];
    assert a.version == key[n + 1..] && b.version == key[m + 1..];
    if n < m {
      assert b.mediaFileId[n] == key[n] == NUL;
      var more := key[n + 1..m];
      assert b.mediaFileId == a.mediaFileId + [NUL] + more;
      assert key[m] == NUL;
      assert a.version == more + [NUL] + b.version;
    }
  }

  lemma StraddledKeys(a: C.PictureRef, b: C.PictureRef)
    ensures Straddles(a, b) ==> KeyOf(a) == KeyOf(b) && !PlainId(b)
  {
    if more: Text :| b.mediaFileId == a.mediaFileId + [NUL] + more && a.version == more + [NUL] + b.version {
      assert b.mediaFileId[|a.mediaFileId|] == NUL;
      assert KeyOf(a) == a.mediaFileId + [NUL] + (more + [NUL] + b.version);
      assert KeyOf(b) == a.mediaFileId + [NUL] + more + [NUL] + b.version;
    }
  }

  /** What picture a slide shows: a news slide its item's, a picture slide its own. */
  predicate RefersTo(slide: C.Slide, ref: C.PictureRef) {
    || (slide.body.News? && slide.body.newsPicture == Some(ref))
    || (slide.body.Picture? && slide.body.picture == ref)
  }

  lemma RefersIs(slide: C.Slide, ref: C.PictureRef)
    ensures PictureOf(slide) == Some(ref) <==> RefersTo(slide, ref)
  {
  }

  ghost predicate KeyWanted(rotation: seq<C.Slide>, key: Text) {
    exists i :: 0 <= i < |rotation| && PictureOf(rotation[i]).Some? && KeyOf(PictureOf(rotation[i]).value) == key
  }

  lemma {:induction false} WantedAre(rotation: seq<C.Slide>, key: Text)
    ensures key in WantedRefs(rotation) <==> KeyWanted(rotation, key)
    ensures key in WantedKeys(rotation) <==> KeyWanted(rotation, key)
    ensures key in WantedRefs(rotation) ==>
              exists i :: 0 <= i < |rotation| && PictureOf(rotation[i]) == Some(WantedRefs(rotation)[key])
                          && KeyOf(WantedRefs(rotation)[key]) == key
  {
    hide KeyOf, PictureOf;
    if rotation != [] {
      var front, last := rotation[..|rotation| - 1], rotation[|rotation| - 1];
      WantedAre(front, key);
      assert forall i :: 0 <= i < |front| ==> front[i] == rotation[i];
      assert KeyWanted(rotation, key)
             <==> KeyWanted(front, key) || (PictureOf(last).Some? && KeyOf(PictureOf(last).value) == key) by {
        if KeyWanted(rotation, key) {
          var i :| 0 <= i < |rotation| && PictureOf(rotation[i]).Some? && KeyOf(PictureOf(rotation[i]).value) == key;
          assert i < |front| ==> PictureOf(front[i]).Some?;
        }
        if KeyWanted(front, key) {
          var i :| 0 <= i < |front| && PictureOf(front[i]).Some? && KeyOf(PictureOf(front[i]).value) == key;
          assert PictureOf(rotation[i]).Some?;
        }
      }
      if key in WantedRefs(rotation) {
        if PictureOf(last).Some? && KeyOf(PictureOf(last).value) == key {
          assert PictureOf(rotation[|rotation| - 1]) == Some(WantedRefs(rotation)[key]);
        } else {
          var i :| 0 <= i < |front| && PictureOf(front[i]) == Some(WantedRefs(front)[key])
                   && KeyOf(WantedRefs(front)[key]) == key;
          assert PictureOf(rotation[i]) == Some(WantedRefs(rotation)[key]);
        }
      }
    }
  }

  /** An entry, and a request not settled, are of a picture with their key; and the entry's is the request's. */
  ghost predicate OfKey(s: Screen) {
    && (forall k :: k in s.pictures ==> KeyOf(s.pictures[k].ref) == k)
    && (forall id :: id in s.pending ==> KeyOf(s.pending[id].ref) == s.pending[id].key)
    && forall k :: k in s.pictures && s.pictures[k].id in s.pending
                   ==> s.pending[s.pictures[k].id].ref == s.pictures[k].ref
  }

  /** The entries are of the pictures the document refers to, and of no others. */
  ghost predicate OfDocument(s: Screen) {
    && (s.content.None? ==> s.pictures == map[])
    && (s.content.Some? ==> forall k :: k in s.pictures <==> KeyWanted(s.content.value.rotation, k))
  }

  predicate PlainDocument(content: C.ScreenContent) {
    forall i :: 0 <= i < |content.rotation| && PictureOf(content.rotation[i]).Some?
                ==> PlainId(PictureOf(content.rotation[i]).value)
  }

  ghost predicate AllPlain(s: Screen) {
    && (s.content.Some? ==> PlainDocument(s.content.value))
    && forall k :: k in s.pictures ==> PlainId(s.pictures[k].ref)
  }

  /** An entry is as it was, or has just been asked for, with no URL yet. */
  ghost predicate KeptOrAsked(s: Screen, t: Screen, key: Text, host: Host)
    requires key in t.pictures
  {
    if key in s.pictures && !(s.pictures[key].state.Failed? && t.now - s.pictures[key].askedAt >= 5 * MINUTE) then
      t.pictures[key] == s.pictures[key]
    else
      var e := t.pictures[key];
      && e.askedAt == t.now && s.asked <= e.id < t.asked && e.url.None? && KeyOf(e.ref) == key
      && (if host.hasPicture && !host.throws(e.id) then
            e.state.Pending? && e.id in t.pending && t.pending[e.id] == Asked(key, e.ref)
          else e.state.Failed? && e.id !in t.pending)
  }

  /** Some keys have been gone through: their entries are kept or asked for, and the others are as they were. */
  ghost predicate AskedSoFar(s: Screen, t: Screen, done: set<Text>, refs: map<Text, C.PictureRef>, host: Host) {
    && OfKey(t) && Ledger(t) && !t.destroyed && t.now == s.now && s.asked <= t.asked && done <= refs.Keys
    && t.pictures.Keys == s.pictures.Keys + done
    && (forall k :: k in done ==> k in t.pictures && KeptOrAsked(s, t, k, host))
    && (forall k :: k in done && k in t.pictures
                    ==> t.pictures[k].ref == refs[k] || (k in s.pictures && t.pictures[k].ref == s.pictures[k].ref))
    && forall k :: k in s.pictures && k !in done ==> k in t.pictures && t.pictures[k] == s.pictures[k]
  }

  function Among(keys: seq<Text>, refs: map<Text, C.PictureRef>): set<Text> {
    set k | k in keys && k in refs
  }

  lemma {:induction false} AskedFor(s: Screen, keys: seq<Text>, refs: map<Text, C.PictureRef>, host: Host)
    requires OfKey(s) && Ledger(s) && !s.destroyed && (forall k :: k in refs ==> KeyOf(refs[k]) == k)
    requires forall i, j :: 0 <= i < j < |keys| ==> keys[i] != keys[j]
    ensures AskedSoFar(s, AskWanted(s, keys, refs, host), Among(keys, refs), refs, host)
  {
    hide KeyOf, Ledger, OfKey, KeptOrAsked, Ask, AsksAgain, AskedSoFar;
    var done := Among(keys, refs);
    if keys == [] {
      assert done == {};
      NothingAsked(s, refs, host);
    } else {
      var front, key := keys[..|keys| - 1], keys[|keys| - 1];
      AskedFor(s, front, refs, host);
      var before := Among(front, refs);
      assert forall k :: k in keys <==> k in front || k == key;
      if key in refs {
        assert key !in front;
        AskedStep(s, AskWanted(s, front, refs, host), before, refs, key, host);
        assert done == before + {key};
      } else {
        assert done == before;
      }
    }
  }

  lemma NothingAsked(s: Screen, refs: map<Text, C.PictureRef>, host: Host)
    requires OfKey(s) && Ledger(s) && !s.destroyed
    ensures AskedSoFar(s, s, {}, refs, host)
  {
    hide Ledger, OfKey;
  }

  lemma AskedStep(s: Screen, u: Screen, done: set<Text>, refs: map<Text, C.PictureRef>, key: Text, host: Host)
    requires AskedSoFar(s, u, done, refs, host) && key in refs && key !in done && KeyOf(refs[key]) == key
    ensures AskedSoFar(s, if AsksAgain(u, key) then Ask(u, key, refs[key], host) else u, done + {key}, refs, host)
  {
    hide KeyOf, Ledger, OfKey, KeptOrAsked, Ask, AsksAgain;
    if AsksAgain(u, key) {
      var t := Ask(u, key, refs[key], host);
      AskKeeps(u, key, refs[key], host);
      AskNotDestroyed(u, key, refs[key], host);
      AskOne(s, u, key, refs[key], host);
      EntriesAsked(u);
      forall k | k in done ensures KeptOrAsked(s, t, k, host) {
        StillKeptOrAsked(s, u, t, k, host);
      }
    } else {
      SomeEntry(u, key);
      NotAsked(s, u, key, host);
    }
  }

  lemma SomeEntry(s: Screen, key: Text)
    requires !AsksAgain(s, key)
    ensures key in s.pictures
  {
  }

  lemma EntriesAsked(s: Screen)
    requires Ledger(s)
    ensures forall k :: k in s.pictures ==> s.pictures[k].id < s.asked
  {
    forall k | k in s.pictures ensures s.pictures[k].id < s.asked {
      assert EntryOk(s, k, s.pictures[k]);
    }
  }

  lemma AskOne(s: Screen, u: Screen, key: Text, ref: C.PictureRef, host: Host)
    requires OfKey(u) && Ledger(u) && KeyOf(ref) == key && AsksAgain(u, key) && s.now == u.now && s.asked <= u.asked
    requires (key in s.pictures <==> key in u.pictures)
             && (key in s.pictures ==> u.pictures[key] == s.pictures[key])
    ensures var t := Ask(u, key, ref, host);
            && OfKey(t) && t.now == u.now && u.asked <= t.asked && t.pictures.Keys == u.pictures.Keys + {key}
            && KeptOrAsked(s, t, key, host) && t.pictures[key].ref == ref
            && (forall k :: k in u.pictures && k != key ==> t.pictures[k] == u.pictures[k])
            && (forall id :: id in u.pending ==> id in t.pending && t.pending[id] == u.pending[id])
            && (forall id :: id in t.pending && id !in u.pending ==> id == u.asked)
  {
    hide KeyOf;
    forall k | k in u.pictures ensures u.pictures[k].id < u.asked {
      assert EntryOk(u, k, u.pictures[k]);
    }
  }

  lemma StillKeptOrAsked(s: Screen, u: Screen, t: Screen, key: Text, host: Host)
    requires key in u.pictures && key in t.pictures && t.pictures[key] == u.pictures[key]
             && KeptOrAsked(s, u, key, host)
    requires t.now == u.now && u.asked <= t.asked && u.pictures[key].id < u.asked
    requires forall id :: id in u.pending ==> id in t.pending && t.pending[id] == u.pending[id]
    requires forall id :: id in t.pending && id !in u.pending ==> id == u.asked
    ensures KeptOrAsked(s, t, key, host)
  {
    hide KeyOf;
  }

  lemma NotAsked(s: Screen, u: Screen, key: Text, host: Host)
    requires !AsksAgain(u, key) && s.now == u.now && key in s.pictures && u.pictures[key] == s.pictures[key]
    ensures KeptOrAsked(s, u, key, host)
  {
  }

  lemma {:induction false} KeysOnce(rotation: seq<C.Slide>)
    ensures forall i, j :: 0 <= i < j < |WantedKeys(rotation)| ==> WantedKeys(rotation)[i] != WantedKeys(rotation)[j]
  {
    hide KeyOf;
    if rotation != [] {
      KeysOnce(rotation[..|rotation| - 1]);
    }
  }

  lemma LetGoAre(s: Screen, refs: map<Text, C.PictureRef>)
    requires OfKey(s)
    ensures var t := LetGo(s, refs);
            && OfKey(t) && t.now == s.now && t.asked == s.asked && t.pending == s.pending && t.destroyed == s.destroyed
            && forall k :: k in t.pictures <==> k in s.pictures && k in refs
    ensures forall k :: k in LetGo(s, refs).pictures ==> LetGo(s, refs).pictures[k] == s.pictures[k]
  {
    hide KeyOf, HeldIds;
  }

  lemma SyncAre(s: Screen, next: C.ScreenContent, host: Host)
    requires OfKey(s) && Ledger(s) && !s.destroyed
    ensures var t := SyncPictures(s, next, host);
            && OfKey(t) && (forall k :: k in t.pictures <==> KeyWanted(next.rotation, k))
            && (forall k :: k in t.pictures ==> KeptOrAsked(s, t, k, host))
            && forall k :: k in t.pictures ==>
                 (k in s.pictures && t.pictures[k].ref == s.pictures[k].ref)
                 || exists i :: 0 <= i < |next.rotation| && PictureOf(next.rotation[i]) == Some(t.pictures[k].ref)
  {
    hide KeyOf, Ledger, OfKey, KeptOrAsked, AskWanted, LetGo, KeyWanted, WantedRefs, WantedKeys, PictureOf;
    var refs, keys := WantedRefs(next.rotation), WantedKeys(next.rotation);
    var u, t := LetGo(s, refs), SyncPictures(s, next, host);
    forall k ensures k in refs <==> KeyWanted(next.rotation, k)
             ensures k in keys <==> KeyWanted(next.rotation, k)
             ensures k in refs ==>
                       exists i :: 0 <= i < |next.rotation| && PictureOf(next.rotation[i]) == Some(refs[k])
                                   && KeyOf(refs[k]) == k
    {
      WantedAre(next.rotation, k);
    }
    LetGoAre(s, refs);
    LetGoKeeps(s, refs);
    KeysOnce(next.rotation);
    AskedFor(u, keys, refs, host);
    assert Among(keys, refs) == refs.Keys;
    AskedAll(u, t, refs, host);
    forall k | k in t.pictures ensures KeptOrAsked(s, t, k, host) {
      KeptSince(s, u, t, k, host);
    }
  }

  lemma AskedAll(u: Screen, t: Screen, refs: map<Text, C.PictureRef>, host: Host)
    requires AskedSoFar(u, t, refs.Keys, refs, host) && forall k :: k in u.pictures ==> k in refs
    ensures OfKey(t) && t.now == u.now && forall k :: k in t.pictures <==> k in refs
    ensures forall k :: k in t.pictures ==> KeptOrAsked(u, t, k, host)
    ensures forall k :: k in t.pictures
                        ==> t.pictures[k].ref == refs[k] || (k in u.pictures && t.pictures[k].ref == u.pictures[k].ref)
  {
    hide OfKey, Ledger, KeptOrAsked;
  }

  lemma KeptSince(s: Screen, u: Screen, t: Screen, key: Text, host: Host)
    requires key in t.pictures && KeptOrAsked(u, t, key, host) && u.asked == s.asked
    requires (key in u.pictures <==> key in s.pictures)
             && (key in s.pictures ==> u.pictures[key] == s.pictures[key])
    ensures KeptOrAsked(s, t, key, host)
  {
    hide KeyOf;
  }

  /** What `show` does to the pictures. */
  lemma ShowBooks(s: Screen, next: C.ScreenContent, unit: int, host: Host)
    requires !s.destroyed
    ensures var r, t := Show(s, next, unit, host),
            SyncPictures(Refit(s.(content := Some(next), unit := unit), host), next, host);
            SameBooks(t, r) && r.content == Some(next) && t.now == s.now
  {
    hide SyncPictures, Refit, Draw, ShowFrom, KeptAt;
    TakenContent(s, next, unit, host);
    TakenNow(s, next, unit, host);
    var t := Taken(s, next, unit, host);
    var kept := KeptAt(t, next, s.current);
    if kept.Some? {
      KeptShowable(t, next, s.current);
      DrawBooks(t, next.rotation[kept.value], kept.value, s.current.value.endsAt, s.current.value.page, host);
      DrawContent(t, next.rotation[kept.value], kept.value, s.current.value.endsAt, s.current.value.page, host);
    } else {
      ShowFromBooks(ClearSlideTimer(t.(current := None)), 0, host);
      ShowFromContent(ClearSlideTimer(t.(current := None)), 0, host);
    }
  }

  lemma TakenNow(s: Screen, next: C.ScreenContent, unit: int, host: Host)
    ensures Taken(s, next, unit, host).now == s.now && Taken(s, next, unit, host).unit == unit
  {
    hide AskWanted, LetGo, WantedKeys, WantedRefs;
    var u := Refit(s.(content := Some(next), unit := unit), host);
    var refs := WantedRefs(next.rotation);
    AskWantedShape(LetGo(u, refs), WantedKeys(next.rotation), refs, host);
    LetGoShape(u, refs);
  }

  lemma DrawContent(s: Screen, slide: C.Slide, index: nat, endsAt: int, page: nat, host: Host)
    ensures Draw(s, slide, index, endsAt, page, host).content == s.content
            && Draw(s, slide, index, endsAt, page, host).unit == s.unit
            && Draw(s, slide, index, endsAt, page, host).minuteTimer == s.minuteTimer
  {
    hide LookOf, FitAfter, LeavesAt;
  }

  lemma ShowFromContent(s: Screen, from: nat, host: Host)
    ensures ShowFrom(s, from, host).content == s.content && ShowFrom(s, from, host).unit == s.unit
            && ShowFrom(s, from, host).minuteTimer == s.minuteTimer
  {
    hide Draw, FindFrom;
    if s.content.Some? {
      var index := FindFrom(s, s.content.value.rotation, from, 0);
      if index.Some? {
        var slide := s.content.value.rotation[index.value];
        DrawContent(s, slide, index.value, s.now + slide.seconds * SECOND, 0, host);
      }
    }
  }

  /** The entries and the requests are of their pictures, and the entries are of the document's. */
  ghost predicate PicturesOk(s: Screen) {
    OfKey(s) && OfDocument(s)
  }

  /** Nothing but what an entry has come to has changed. */
  ghost predicate SameEntries(s: Screen, r: Screen) {
    && r.content == s.content && r.pictures.Keys == s.pictures.Keys
    && (forall k :: k in s.pictures ==> r.pictures[k].ref == s.pictures[k].ref && r.pictures[k].id == s.pictures[k].id)
    && forall id :: id in r.pending ==> id in s.pending && r.pending[id] == s.pending[id]
  }

  lemma SameEntriesOk(s: Screen, r: Screen)
    requires PicturesOk(s) && SameEntries(s, r)
    ensures PicturesOk(r) && (AllPlain(s) ==> AllPlain(r))
  {
    hide KeyOf, KeyWanted, PlainId, PictureOf;
  }

  /** A URL an entry has after a step it had before, or the step has brought it for the entry's own picture. */
  ghost predicate UrlsFrom(s: Screen, r: Screen, step: Step) {
    forall k :: k in r.pictures && r.pictures[k].url.Some? ==>
                  || (k in s.pictures && s.pictures[k].url == r.pictures[k].url
                      && s.pictures[k].ref == r.pictures[k].ref)
                  || (step.SettleStep? && step.url == r.pictures[k].url && step.id in s.pending
                      && s.pending[step.id].ref == r.pictures[k].ref)
  }

  /** Drawing changes neither the document nor the pictures. */
  lemma PictureChangedContent(s: Screen, key: Text, host: Host)
    ensures PictureChanged(s, key, host).content == s.content && PictureChanged(s, key, host).unit == s.unit
            && PictureChanged(s, key, host).minuteTimer == s.minuteTimer
  {
    hide ShowFrom, Draw, UrlOf, KeyOf, LookOf;
    if s.content.Some? {
      if s.current.None? {
        ShowFromContent(s, 0, host);
      } else {
        AdvanceContent(s, host);
        if SlideAt(s).Some? {
          DrawOrLeaveContent(s, SlideAt(s).value, s.current.value.index, s.current.value.endsAt, s.current.value.page,
                             host);
        }
      }
    }
  }

  lemma AdvanceContent(s: Screen, host: Host)
    ensures Advance(s, host).content == s.content && Advance(s, host).unit == s.unit
            && Advance(s, host).minuteTimer == s.minuteTimer
  {
    hide ShowFrom, Draw, UrlOf, LookOf;
    var t := s.(slideTimer := None);
    ShowFromContent(t, if t.current.None? then 0 else t.current.value.index + 1, host);
    if SlideAt(t).Some? {
      DrawContent(t, SlideAt(t).value, t.current.value.index, t.now + SlideAt(t).value.seconds * SECOND,
                  t.current.value.page + 1, host);
    }
  }

  lemma DrawOrLeaveContent(s: Screen, slide: C.Slide, index: nat, endsAt: int, page: nat, host: Host)
    ensures DrawOrLeave(s, slide, index, endsAt, page, host).content == s.content
            && DrawOrLeave(s, slide, index, endsAt, page, host).unit == s.unit
            && DrawOrLeave(s, slide, index, endsAt, page, host).minuteTimer == s.minuteTimer
  {
    hide Draw, Advance, UrlOf, LookOf;
    DrawContent(s, slide, index, endsAt, page, host);
    AdvanceContent(s.(current := None), host);
  }

  lemma TickContent(s: Screen, host: Host)
    ensures Tick(s, host).content == s.content && Tick(s, host).unit == s.unit
  {
    hide ShowFrom, DrawOrLeave, LookOf;
    var t := s.(minuteTimer := None);
    if !s.destroyed && s.content.Some? {
      if s.current.None? {
        ShowFromContent(t, 0, host);
      } else if SlideAt(t).Some? {
        DrawOrLeaveContent(t, SlideAt(t).value, t.current.value.index, t.current.value.endsAt, t.current.value.page,
                           host);
      }
    }
  }

  lemma SettlePictures(s: Screen, step: Step, host: Host)
    requires Ledger(s) && PicturesOk(s) && step.SettleStep? && step.id in s.pending && s.now == step.at
    ensures var r := Settle(s, step.id, step.url, host);
            SameEntries(s, r) && UrlsFrom(s, r, step)
  {
    hide PictureChanged, KeyOf, OfDocument;
    var key := s.pending[step.id].key;
    var t := s.(pending := s.pending - {step.id},
                handed := if step.url.Some? then s.handed + {step.id} else s.handed);
    if !s.destroyed && key in s.pictures && s.pictures[key].id == step.id {
      var entry := s.pictures[key].(state := if step.url.None? then Failed else Ready, url := step.url);
      var u := t.(pictures := t.pictures[key := entry]);
      PictureChangedBooks(u, key, host);
      PictureChangedContent(u, key, host);
    }
  }

  lemma PictureFailedPictures(s: Screen, step: Step, host: Host)
    requires Ledger(s) && PicturesOk(s) && step.ImageErrorStep?
    ensures var r := PictureFailed(s, step.ref, host);
            SameEntries(s, r) && UrlsFrom(s, r, step)
  {
    hide PictureChanged, KeyOf, OfDocument, OfKey;
    var key := KeyOf(step.ref);
    if key in s.pictures && s.pictures[key].state.Ready? {
      var t := Release(s, s.pictures[key]);
      var u := t.(pictures := t.pictures[key := s.pictures[key].(state := Failed, url := None)]);
      PictureChangedBooks(u, key, host);
      PictureChangedContent(u, key, host);
    }
  }

  lemma ShowPictures(s: Screen, step: Step, host: Host)
    requires Ledger(s) && PicturesOk(s) && step.ShowStep? && !s.destroyed && s.now == step.at
    ensures var r := Show(s, step.next, step.unit, host);
            && PicturesOk(r) && UrlsFrom(s, r, step) && (forall k :: k in r.pictures ==> KeptOrAsked(s, r, k, host))
            && (AllPlain(s) && PlainDocument(step.next) ==> AllPlain(r))
  {
    hide SyncPictures, Show, KeyOf, Ledger, KeyWanted, PlainId, PictureOf;
    var u := Refit(s.(content := Some(step.next), unit := step.unit), host);
    var t, r := SyncPictures(u, step.next, host), Show(s, step.next, step.unit, host);
    LedgerSame(s, u);
    SyncAre(u, step.next, host);
    ShowBooks(s, step.next, step.unit, host);
    forall k | k in r.pictures ensures KeptOrAsked(s, r, k, host) {
      KeptSince(s, u, t, k, host);
      KeptSame(s, t, r, k, host);
    }
  }

  lemma KeptSame(s: Screen, t: Screen, r: Screen, key: Text, host: Host)
    requires key in t.pictures && KeptOrAsked(s, t, key, host) && SameBooks(t, r)
    ensures KeptOrAsked(s, r, key, host)
  {
    hide KeyOf;
  }

  lemma StepPictures(s: Screen, step: Step, host: Host)
    requires Ledger(s) && PicturesOk(s)
    ensures var r := Do(s, step, host);
            && PicturesOk(r) && UrlsFrom(s, r, step)
            && (AllPlain(s) && (step.ShowStep? ==> PlainDocument(step.next)) ==> AllPlain(r))
  {
    hide Ledger, PicturesOk, Show, Settle, PictureFailed, Advance, DrawOrLeave, ShowFrom, PlainId, PlainDocument,
         AllPlain, SameEntries, UrlsFrom;
    var t, r := s.(now := step.at), Do(s, step, host);
    LedgerNow(s, step.at);
    SameUrls(s, t, step);
    SameEntriesOk(s, t);
    match step {
      case ShowStep(_, next, unit) =>
        if t.destroyed {
          ShowDestroyed(t, next, unit, host);
        } else {
          ShowPictures(t, step, host);
        }
      case MessageStep(_, unit) => NoPictures(t, unit);
      case DestroyStep(_) => NoPictures(t, 0);
      case SettleStep(_, id, url) =>
        if id in t.pending {
          SettlePictures(t, step, host);
          SameEntriesOk(t, r);
        }
      case ImageErrorStep(_, ref) =>
        PictureFailedPictures(t, step, host);
        SameEntriesOk(t, r);
      case SlideTimerStep(_, handle) =>
        AdvanceBooks(t.(timers := t.timers - {handle}), host);
        AdvanceContent(t.(timers := t.timers - {handle}), host);
        SameUrls(t, r, step);
        SameEntriesOk(t, r);
      case MinuteTimerStep(_) =>
        TickBooks(t, host);
        TickContent(t, host);
        SameUrls(t, r, step);
        SameEntriesOk(t, r);
      case ResizeStep(_, unit) =>
        SameUrls(t, r, step);
        SameEntriesOk(t, r);
    }
    UrlsNow(s, t, r, step);
  }

  lemma UrlsNow(s: Screen, t: Screen, r: Screen, step: Step)
    requires t.pictures == s.pictures && t.pending == s.pending && UrlsFrom(t, r, step)
    ensures UrlsFrom(s, r, step)
  {
  }

  lemma SameUrls(s: Screen, r: Screen, step: Step)
    requires r.pictures == s.pictures && r.content == s.content && r.pending == s.pending
    ensures SameEntries(s, r) && UrlsFrom(s, r, step)
  {
  }

  lemma NoPictures(s: Screen, unit: int)
    requires Ledger(s) && PicturesOk(s)
    ensures PicturesOk(Message(s, unit)) && PicturesOk(Destroy(s))
    ensures AllPlain(s) ==> AllPlain(Message(s, unit)) && AllPlain(Destroy(s))
    ensures forall step :: UrlsFrom(s, Message(s, unit), step) && UrlsFrom(s, Destroy(s), step)
  {
    hide HeldIds, KeyOf, KeyWanted, PlainId, PictureOf;
  }

  /** Every document shown in a run has plain media file ids. */
  predicate PlainRun(steps: seq<Step>) {
    forall i :: 0 <= i < |steps| && steps[i].ShowStep? ==> PlainDocument(steps[i].next)
  }

  lemma {:induction false} RunPictures(now: int, unit: int, steps: seq<Step>, host: Host)
    ensures var r := Run(Mounted(now, unit), steps, host);
            Ledger(r) && PicturesOk(r) && (PlainRun(steps) ==> AllPlain(r))
  {
    hide Ledger, PicturesOk, AllPlain, Do, Mounted, PlainDocument;
    if steps == [] {
      NoneMounted(now, unit);
    } else {
      var front := steps[..|steps| - 1];
      RunPictures(now, unit, front, host);
      StepLedger(Run(Mounted(now, unit), front, host), steps[|steps| - 1], host);
      StepPictures(Run(Mounted(now, unit), front, host), steps[|steps| - 1], host);
      assert PlainRun(steps) ==> PlainRun(front);
    }
  }

  lemma NoneMounted(now: int, unit: int)
    ensures Ledger(Mounted(now, unit)) && PicturesOk(Mounted(now, unit)) && AllPlain(Mounted(now, unit))
  {
    assert HeldIds(Mounted(now, unit).pictures) == {};
  }

  /** A slide of the rotation shows the picture. */
  ghost predicate Shows(rotation: seq<C.Slide>, ref: C.PictureRef) {
    exists i, own :: 0 <= i < |rotation| && RefersTo(rotation[i], own) && SamePicture(own, ref)
  }

  ghost predicate HasEntry(pictures: map<Text, Entry>, ref: C.PictureRef) {
    exists k :: k in pictures && SamePicture(pictures[k].ref, ref)
  }

  lemma EntryIsShown(s: Screen, key: Text)
    requires PicturesOk(s) && AllPlain(s) && s.content.Some? && key in s.pictures
    ensures Shows(s.content.value.rotation, s.pictures[key].ref)
  {
    hide KeyOf, PlainId, SamePicture, RefersTo, PictureOf;
    var rotation := s.content.value.rotation;
    var i :| 0 <= i < |rotation| && PictureOf(rotation[i]).Some? && KeyOf(PictureOf(rotation[i]).value) == key;
    var ref := PictureOf(rotation[i]).value;
    RefersIs(rotation[i], ref);
    KeysSameIff(ref, s.pictures[key].ref);
  }

  lemma ShownHasEntry(s: Screen, i: nat, ref: C.PictureRef)
    requires PicturesOk(s) && AllPlain(s) && s.content.Some? && i < |s.content.value.rotation|
             && RefersTo(s.content.value.rotation[i], ref)
    ensures KeyOf(ref) in s.pictures && PlainId(ref) && SamePicture(s.pictures[KeyOf(ref)].ref, ref)
  {
    hide KeyOf, PlainId, SamePicture, RefersTo, PictureOf;
    RefersIs(s.content.value.rotation[i], ref);
    assert KeyWanted(s.content.value.rotation, KeyOf(ref));
    KeysSameIff(s.pictures[KeyOf(ref)].ref, ref);
  }

  lemma OneEntry(s: Screen, j: Text, k: Text)
    requires PicturesOk(s) && AllPlain(s) && j in s.pictures && k in s.pictures
             && SamePicture(s.pictures[j].ref, s.pictures[k].ref)
    ensures j == k
  {
    hide KeyOf, PlainId, SamePicture, OfDocument, PlainDocument;
    KeysSameIff(s.pictures[j].ref, s.pictures[k].ref);
  }

  /**
   Over every run of documents with plain ids: there is one entry for each picture the document refers to, by its media
   file and version, and none for any other; without a document there is none.
   */
  lemma EntriesAreDocuments(now: int, unit: int, steps: seq<Step>, host: Host)
    requires PlainRun(steps)
    ensures var r := Run(Mounted(now, unit), steps, host);
            && (r.content.None? ==> r.pictures == map[])
            && (r.content.Some? ==>
                  && (forall k :: k in r.pictures ==> Shows(r.content.value.rotation, r.pictures[k].ref))
                  && forall i, ref ::
                       0 <= i < |r.content.value.rotation| && RefersTo(r.content.value.rotation[i], ref)
                       ==> HasEntry(r.pictures, ref))
            && forall j, k :: j in r.pictures && k in r.pictures && SamePicture(r.pictures[j].ref, r.pictures[k].ref)
                              ==> j == k
  {
    hide Run, Mounted, KeyOf, Ledger, AllPlain, SamePicture, RefersTo, Shows, KeyWanted, OfKey;
    RunPictures(now, unit, steps, host);
    var r := Run(Mounted(now, unit), steps, host);
    if r.content.Some? {
      var rotation := r.content.value.rotation;
      forall k | k in r.pictures ensures Shows(rotation, r.pictures[k].ref) {
        EntryIsShown(r, k);
      }
      forall i, ref | 0 <= i < |rotation| && RefersTo(rotation[i], ref) ensures HasEntry(r.pictures, ref) {
        ShownHasEntry(r, i, ref);
      }
    }
    forall j, k | j in r.pictures && k in r.pictures && SamePicture(r.pictures[j].ref, r.pictures[k].ref)
      ensures j == k
    {
      OneEntry(r, j, k);
    }
  }

  /**
   Over every run, a document shown keeps each entry that its picture still has, but asks anew for one that failed five
   minutes ago or more, and for every picture that had none. Each is asked for once.
   */
  lemma ShownAsksFor(now: int, unit: int, steps: seq<Step>, step: Step, host: Host, key: Text)
    requires var s := Run(Mounted(now, unit), steps, host);
             step.ShowStep? && !s.destroyed && key in Do(s, step, host).pictures
    ensures var s := Run(Mounted(now, unit), steps, host);
            KeptOrAsked(s, Do(s, step, host), key, host) && Do(s, step, host).now == step.at
            && DistinctIds(Do(s, step, host).pictures)
  {
    hide Run, Mounted, KeyOf, Show, PicturesOk;
    RunPictures(now, unit, steps, host);
    var s := Run(Mounted(now, unit), steps, host);
    var t := s.(now := step.at);
    StepLedger(s, step, host);
    LedgerNow(s, step.at);
    SameUrls(s, t, step);
    SameEntriesOk(s, t);
    hide Ledger;
    ShowPictures(t, step, host);
    ShowBooks(t, step.next, step.unit, host);
    KeptSince(s, t, Do(s, step, host), key, host);
  }

  /** At step `j` of a run the URL was handed back, to the request made for that picture. */
  ghost predicate BroughtAt(now: int, unit: int, steps: seq<Step>, host: Host, ref: C.PictureRef, url: Text, j: nat) {
    && j < |steps| && steps[j].SettleStep? && steps[j].url == Some(url)
    && var before := Run(Mounted(now, unit), steps[..j], host);
       steps[j].id in before.pending && before.pending[steps[j].id].ref == ref
  }

  lemma {:induction false} RunUrls(now: int, unit: int, steps: seq<Step>, host: Host, key: Text)
    requires key in Run(Mounted(now, unit), steps, host).pictures
             && Run(Mounted(now, unit), steps, host).pictures[key].url.Some?
    ensures var e := Run(Mounted(now, unit), steps, host).pictures[key];
            exists j: nat :: BroughtAt(now, unit, steps, host, e.ref, e.url.value, j)
  {
    hide Do, PicturesOk, Ledger;
    assert steps != [];
    hide Mounted;
    var front, last := steps[..|steps| - 1], steps[|steps| - 1];
    var s, r := Run(Mounted(now, unit), front, host), Run(Mounted(now, unit), steps, host);
    RunPictures(now, unit, front, host);
    StepPictures(s, last, host);
    var e := r.pictures[key];
    if key in s.pictures && s.pictures[key].url == e.url && s.pictures[key].ref == e.ref {
      RunUrls(now, unit, front, host, key);
      var j: nat :| BroughtAt(now, unit, front, host, e.ref, e.url.value, j);
      assert steps[..j] == front[..j];
      assert BroughtAt(now, unit, steps, host, e.ref, e.url.value, j);
    } else {
      assert BroughtAt(now, unit, steps, host, e.ref, e.url.value, |steps| - 1);
    }
  }

  // ---------- What the page on screen looks like ----------

  /** The look on screen is what the slide's drawing is made from at a time, with the entries there are now. */
  ghost predicate DrawnAt(s: Screen, t: int, host: Host) {
    s.current.Some? && s.content.Some? && SlideAt(s).Some?
    && s.current.value.look == LookOf(s.(now := t), SlideAt(s).value, s.content.value, host)
  }

  /** It was drawn within the minute that ends with the next tick, which falls on a full minute. */
  ghost predicate LookOk(s: Screen, host: Host) {
    && (s.minuteTimer.Some? ==> s.minuteTimer.value % MINUTE == 0)
    && (s.current.Some? ==> s.minuteTimer.Some?
                            && exists t :: s.minuteTimer.value - MINUTE <= t <= s.now && DrawnAt(s, t, host))
  }

  /** The page and the page count are what the look comes to on the canvas as it is. */
  ghost predicate FitOk(s: Screen, host: Host) {
    s.current.Some? ==> exists asked: nat :: FitAs(s.current.value, s.unit, asked, host)
  }

  ghost predicate FitAs(c: Current, unit: int, asked: nat, host: Host) {
    c.page == host.fit(c.look, unit, asked).page && c.pages == host.fit(c.look, unit, asked).pages
  }

  ghost predicate NoneShowable(s: Screen, rotation: seq<C.Slide>) {
    forall i :: 0 <= i < |rotation| ==> !Showable(s, rotation[i])
  }

  /** With a document and nothing on screen, none of its slides can be shown. */
  ghost predicate EmptyOk(s: Screen) {
    s.content.Some? && s.current.None? ==> NoneShowable(s, s.content.value.rotation)
  }

  ghost predicate ScreenOk(s: Screen, host: Host) {
    LookOk(s, host) && FitOk(s, host) && EmptyOk(s)
  }

  /** A page that has just been drawn. */
  ghost predicate JustDrawn(s: Screen, host: Host) {
    DrawnAt(s, s.now, host) && FitOk(s, host)
  }

  lemma DrawIsFresh(s: Screen, slide: C.Slide, index: nat, endsAt: int, page: nat, host: Host)
    requires s.content.Some? && index < |s.content.value.rotation| && s.content.value.rotation[index] == slide
             && FitOk(s, host)
    ensures var r := Draw(s, slide, index, endsAt, page, host);
            JustDrawn(r, host) && SlideAt(r) == Some(slide)
            && (FitAs(r.current.value, r.unit, page, host)
                || (s.current.Some? && r.current.value.page == s.current.value.page == page
                    && r.current.value.pages == s.current.value.pages
                    && r.current.value.look == s.current.value.look))
            && (s.current.Some? && s.current.value.id == slide.id && s.current.value.page == page
                && r.current.value.look == s.current.value.look
                ==> r.current.value.page == page && r.current.value.pages == s.current.value.pages)
  {
    hide LeavesAt, UrlOf;
    var r := Draw(s, slide, index, endsAt, page, host);
    var look := LookOf(s, slide, s.content.value, host);
    assert r.current.value.look == look && r.unit == s.unit;
    if Stays(s.current, slide, look, page) {
      var asked: nat :| FitAs(s.current.value, s.unit, asked, host);
      assert FitAs(r.current.value, r.unit, asked, host);
    } else {
      assert FitAs(r.current.value, r.unit, page, host);
    }
  }

  lemma {:induction false} FoundNone(s: Screen, rotation: seq<C.Slide>, from: nat, step: nat, k: nat)
    requires step <= k < |rotation| && FindFrom(s, rotation, from, step).None?
    ensures !Showable(s, rotation[(from + k) % |rotation|])
    decreases |rotation| - step
  {
    if step < k {
      FoundNone(s, rotation, from, step + 1, k);
    }
  }

  lemma FindsAny(s: Screen, rotation: seq<C.Slide>, from: nat)
    requires from <= |rotation| && FindFrom(s, rotation, from, 0).None?
    ensures NoneShowable(s, rotation)
  {
    hide Showable, FindFrom;
    forall i | 0 <= i < |rotation| ensures !Showable(s, rotation[i]) {
      var k := if i >= from then i - from else i + |rotation| - from;
      FoundNone(s, rotation, from, 0, k);
      AroundIsRemainder(from + k, |rotation|);
    }
  }

  /** What `showFrom` leaves: a slide that can be shown, just drawn, or nothing when there is none. */
  ghost predicate Begun(r: Screen, host: Host) {
    && r.content.Some?
    && (r.current.Some? ==> JustDrawn(r, host) && Showable(r, SlideAt(r).value))
    && (r.current.None? ==> NoneShowable(r, r.content.value.rotation))
  }

  lemma ShowFromBegins(s: Screen, from: nat, host: Host)
    requires s.content.Some? && from <= |s.content.value.rotation| && FitOk(s, host)
    ensures Begun(ShowFrom(s, from, host), host)
  {
    hide Draw, FindFrom, UntilOf, UrlOf, JustDrawn, FitOk;
    var rotation := s.content.value.rotation;
    var index := FindFrom(s, rotation, from, 0);
    if index.Some? {
      var slide := rotation[index.value];
      var endsAt := s.now + slide.seconds * SECOND;
      DrawIsFresh(s, slide, index.value, endsAt, 0, host);
      DrawBooks(s, slide, index.value, endsAt, 0, host);
      DrawContent(s, slide, index.value, endsAt, 0, host);
    } else {
      FindsAny(s, rotation, from);
    }
  }

  lemma AdvanceBegins(s: Screen, host: Host)
    requires s.content.Some? && FitOk(s, host) && (s.current.Some? ==> SlideAt(s).Some?)
    ensures Begun(Advance(s, host), host)
  {
    hide Draw, ShowFrom, UntilOf, UrlOf, JustDrawn;
    var t := s.(slideTimer := None);
    var slide := SlideAt(t);
    if slide.Some? && t.current.value.page + 1 < t.current.value.pages && Showable(t, slide.value) {
      var endsAt := t.now + slide.value.seconds * SECOND;
      DrawIsFresh(t, slide.value, t.current.value.index, endsAt, t.current.value.page + 1, host);
      DrawBooks(t, slide.value, t.current.value.index, endsAt, t.current.value.page + 1, host);
      DrawContent(t, slide.value, t.current.value.index, endsAt, t.current.value.page + 1, host);
    } else {
      ShowFromBegins(t, if t.current.None? then 0 else t.current.value.index + 1, host);
    }
  }

  /** The document has no page, or has one just drawn, and the next tick is within the minute. */
  lemma BegunOk(r: Screen, host: Host)
    requires Begun(r, host) && r.minuteTimer.Some? && r.minuteTimer.value % MINUTE == 0
             && r.minuteTimer.value - MINUTE <= r.now
    ensures ScreenOk(r, host)
  {
    hide Showable, LookOf;
    assert r.current.Some? ==> DrawnAt(r, r.now, host);
  }

  lemma JustDrawnOk(r: Screen, host: Host)
    requires JustDrawn(r, host) && r.minuteTimer.Some? && r.minuteTimer.value % MINUTE == 0
             && r.minuteTimer.value - MINUTE <= r.now
    ensures ScreenOk(r, host)
  {
    hide Showable, LookOf;
    assert DrawnAt(r, r.now, host);
  }

  /** Nothing that is drawn from has changed, nor what can be shown. */
  lemma SameScreenOk(s: Screen, r: Screen, host: Host)
    requires ScreenOk(s, host) && r.content == s.content && r.current == s.current && r.unit == s.unit
             && r.minuteTimer == s.minuteTimer && r.now == s.now
    requires forall slide :: PictureOf(slide).Some? && Some(slide) == SlideAt(s)
                             ==> UrlOf(r.pictures, PictureOf(slide).value) == UrlOf(s.pictures, PictureOf(slide).value)
    requires s.current.None? ==> r.pictures == s.pictures
    ensures ScreenOk(r, host)
  {
    hide UrlOf, UntilOf;
    if s.current.Some? {
      var t :| s.minuteTimer.value - MINUTE <= t <= s.now && DrawnAt(s, t, host);
      assert DrawnAt(r, t, host);
    }
  }

  /** As time passes, fewer slides can be shown, and the look stays the minute's. */
  lemma ScreenOkNow(s: Screen, now: int, host: Host)
    requires ScreenOk(s, host) && s.now <= now
    ensures ScreenOk(s.(now := now), host)
  {
    hide UrlOf, UntilOf;
    if s.current.Some? {
      var t :| s.minuteTimer.value - MINUTE <= t <= s.now && DrawnAt(s, t, host);
      assert DrawnAt(s.(now := now), t, host);
    }
  }

  lemma PictureChangedOk(s: Screen, r0: Screen, key: Text, host: Host)
    requires MinuteOk(s) && ScreenOk(s, host) && (s.current.Some? ==> SlideAt(s).Some? && s.content.Some?)
    requires r0.content == s.content && r0.current == s.current && r0.unit == s.unit && r0.minuteTimer == s.minuteTimer
             && r0.now == s.now
    requires forall ref: C.PictureRef :: KeyOf(ref) != key ==> UrlOf(r0.pictures, ref) == UrlOf(s.pictures, ref)
    requires r0.current.Some? && !LosesPicture(r0, key) ==> Drawable(r0.pictures, SlideAt(r0).value)
    ensures ScreenOk(PictureChanged(r0, key, host), host)
  {
    hide Draw, Advance, ShowFrom, UrlOf, UntilOf, KeyOf, JustDrawn, Begun, LookOf;
    PictureChangedContent(r0, key, host);
    PictureChangedBooks(r0, key, host);
    FitSame(s, r0, host);
    if r0.content.None? {
      NoScreen(r0, host);
    } else if r0.current.None? {
      ShowFromBegins(r0, 0, host);
      BegunOk(ShowFrom(r0, 0, host), host);
    } else {
      var slide := SlideAt(r0);
      if PictureOf(slide.value).Some? && KeyOf(PictureOf(slide.value).value) == key {
        if LosesPicture(r0, key) {
          AdvanceBegins(r0, host);
          BegunOk(Advance(r0, host), host);
        } else {
          DrawIsFresh(r0, slide.value, r0.current.value.index, r0.current.value.endsAt, r0.current.value.page, host);
          JustDrawnOk(PictureChanged(r0, key, host), host);
        }
      } else {
        SameScreenOk(s, r0, host);
      }
    }
  }

  lemma FitSame(s: Screen, r: Screen, host: Host)
    requires ScreenOk(s, host) && r.current == s.current && r.unit == s.unit && r.minuteTimer == s.minuteTimer
    ensures FitOk(r, host) && (r.minuteTimer.Some? ==> r.minuteTimer.value % MINUTE == 0)
  {
  }

  lemma NoScreen(s: Screen, host: Host)
    requires s.content.None? && s.current.None? && (s.minuteTimer.Some? ==> s.minuteTimer.value % MINUTE == 0)
    ensures ScreenOk(s, host)
  {
  }

  lemma NothingOn(s: Screen)
    requires Inv(s)
    ensures s.current.Some? ==> SlideAt(s).Some? && SlideAt(s).value.id == s.current.value.id
    ensures s.content.None? ==> s.current.None?
    ensures s.current.Some? ==> s.content.Some? && SlideAt(s).Some? && s.slideTimer.Some?
    ensures s.content.Some? ==> s.minuteTimer.Some?
    ensures s.minuteTimer.Some? ==> s.now <= s.minuteTimer.value <= s.now + MINUTE
  {
    hide Ledger, UntilOf, UrlOf;
  }

  lemma UrlElsewhere(pictures: map<Text, Entry>, key: Text, e: Entry, ref: C.PictureRef)
    requires KeyOf(ref) != key
    ensures UrlOf(pictures[key := e], ref) == UrlOf(pictures, ref)
  {
    hide KeyOf;
  }

  lemma SettleOk(s: Screen, id: nat, url: Option<Text>, host: Host)
    requires Inv(s) && ScreenOk(s, host) && id in s.pending
    ensures ScreenOk(Settle(s, id, url, host), host)
  {
    hide PictureChanged, KeyOf, LookOk, FitOk, EmptyOk, UntilOf, UrlOf;
    NothingOn(s);
    var key := s.pending[id].key;
    var t := s.(pending := s.pending - {id}, handed := if url.Some? then s.handed + {id} else s.handed);
    if s.destroyed || key !in s.pictures || s.pictures[key].id != id {
      SameScreenOk(s, Settle(s, id, url, host), host);
    } else {
      var entry := s.pictures[key].(state := if url.None? then Failed else Ready, url := url);
      var r := t.(pictures := t.pictures[key := entry]);
      forall ref: C.PictureRef | KeyOf(ref) != key ensures UrlOf(r.pictures, ref) == UrlOf(s.pictures, ref) {
        UrlElsewhere(s.pictures, key, entry, ref);
      }
      assert EntryOk(s, key, s.pictures[key]);
      StillDrawn(s, r, key);
      PictureChangedOk(s, r, key, host);
    }
  }

  /** A slide on screen that did not lose its picture can still be drawn. */
  lemma StillDrawn(s: Screen, r: Screen, key: Text)
    requires OnScreen(s) && r.content == s.content && r.current == s.current
             && forall ref: C.PictureRef :: KeyOf(ref) != key ==> UrlOf(r.pictures, ref) == UrlOf(s.pictures, ref)
    ensures r.current.Some? && !LosesPicture(r, key) ==> SlideAt(r).Some? && Drawable(r.pictures, SlideAt(r).value)
  {
    hide UrlOf, KeyOf, UntilOf;
  }

  lemma PictureFailedOk(s: Screen, ref: C.PictureRef, host: Host)
    requires Inv(s) && ScreenOk(s, host)
    ensures ScreenOk(PictureFailed(s, ref, host), host)
  {
    hide PictureChanged, KeyOf, LookOk, FitOk, EmptyOk, UntilOf, UrlOf, Ledger;
    NothingOn(s);
    var key := KeyOf(ref);
    if key in s.pictures && s.pictures[key].state.Ready? {
      var entry := s.pictures[key].(state := Failed, url := None);
      var r := Release(s, s.pictures[key]).(pictures := s.pictures[key := entry]);
      forall other: C.PictureRef | KeyOf(other) != key ensures UrlOf(r.pictures, other) == UrlOf(s.pictures, other) {
        UrlElsewhere(s.pictures, key, entry, other);
      }
      StillDrawn(s, r, key);
      PictureChangedOk(s, r, key, host);
    }
  }

  lemma ScheduledOk(s: Screen, host: Host)
    requires s.content.Some? ==> Begun(s, host) || JustDrawn(s, host)
    requires s.content.None? ==> s.current.None?
    ensures ScreenOk(ScheduleTick(s), host)
  {
    hide Showable, LookOf, FitOk;
    var r := ScheduleTick(s);
    NextMinute(s.now);
    if s.content.None? {
      NoScreen(r, host);
    } else {
      ScheduledSame(s, r, host);
      if JustDrawn(s, host) {
        JustDrawnOk(r, host);
      } else {
        BegunOk(r, host);
      }
    }
  }

  lemma ScheduledSame(s: Screen, r: Screen, host: Host)
    requires r == s.(minuteTimer := r.minuteTimer)
    ensures (Begun(s, host) ==> Begun(r, host)) && (JustDrawn(s, host) ==> JustDrawn(r, host))
  {
    hide UrlOf, UntilOf;
  }

  lemma NextMinute(now: int)
    ensures (now + MINUTE - now % MINUTE) % MINUTE == 0 && now < now + MINUTE - now % MINUTE <= now + MINUTE
  {
    var m := now / MINUTE;
    assert now + MINUTE - now % MINUTE == (m + 1) * MINUTE;
    WholeMinutes(m + 1);
  }

  lemma WholeMinutes(m: int)
    ensures m * MINUTE % MINUTE == 0
  {
  }

  lemma TickOk(s: Screen, host: Host)
    requires Inv(s) && ScreenOk(s, host)
    ensures ScreenOk(Tick(s, host), host)
  {
    hide ShowFrom, Draw, Advance, LookOf, UntilOf, UrlOf, Ledger, Begun, JustDrawn, FitOk, EmptyOk;
    NothingOn(s);
    var t := s.(minuteTimer := None);
    if s.destroyed {
      NoScreen(t, host);
    } else if s.content.None? {
      ScheduledOk(t, host);
    } else if s.current.None? {
      FitNone(t, host);
      ShowFromBegins(t, 0, host);
      ShowFromContent(t, 0, host);
      ScheduledOk(ShowFrom(t, 0, host), host);
    } else {
      var slide := SlideAt(t).value;
      FitNow(s, t, host);
      if LookOf(t, slide, t.content.value, host) != t.current.value.look {
        DrawIsFresh(t, slide, t.current.value.index, t.current.value.endsAt, t.current.value.page, host);
        DrawContent(t, slide, t.current.value.index, t.current.value.endsAt, t.current.value.page, host);
        ScheduledOk(Draw(t, slide, t.current.value.index, t.current.value.endsAt, t.current.value.page, host), host);
      } else {
        LookedAt(t, host);
        ScheduledOk(t, host);
      }
    }
  }

  lemma FitNow(s: Screen, t: Screen, host: Host)
    requires FitOk(s, host) && t.current == s.current && t.unit == s.unit
    ensures FitOk(t, host)
  {
  }

  lemma LookedAt(s: Screen, host: Host)
    requires s.current.Some? && s.content.Some? && SlideAt(s).Some? && FitOk(s, host)
             && LookOf(s, SlideAt(s).value, s.content.value, host) == s.current.value.look
    ensures JustDrawn(s, host)
  {
    hide LookOf, FitOk;
    assert s.(now := s.now) == s;
  }

  lemma RefitOk(s: Screen, host: Host)
    ensures FitOk(Refit(s, host), host)
    ensures s.current.Some? ==> FitAs(Refit(s, host).current.value, s.unit, s.current.value.page, host)
  {
    if s.current.Some? {
      assert FitAs(Refit(s, host).current.value, s.unit, s.current.value.page, host);
    }
  }

  lemma ResizeOk(s: Screen, unit: int, host: Host)
    requires ScreenOk(s, host)
    ensures ScreenOk(Resize(s, unit, host), host)
  {
    hide UrlOf, UntilOf, FitOk;
    if !s.destroyed {
      var r := Resize(s, unit, host);
      RefitOk(s.(unit := unit), host);
      if s.current.Some? {
        var t :| s.minuteTimer.value - MINUTE <= t <= s.now && DrawnAt(s, t, host);
        assert DrawnAt(r, t, host);
      }
    }
  }

  lemma ShowOk(s: Screen, next: C.ScreenContent, unit: int, host: Host)
    requires !s.destroyed
    ensures ScreenOk(Show(s, next, unit, host), host)
  {
    hide Taken, Draw, ShowFrom, UntilOf, UrlOf, Begun, JustDrawn, FitOk, LookOf, Showable, KeptAt;
    var t := Taken(s, next, unit, host);
    TakenContent(s, next, unit, host);
    TakenFit(s, next, unit, host);
    var kept := KeptAt(t, next, s.current);
    if kept.Some? {
      DrawIsFresh(t, next.rotation[kept.value], kept.value, s.current.value.endsAt, s.current.value.page, host);
      DrawContent(t, next.rotation[kept.value], kept.value, s.current.value.endsAt, s.current.value.page, host);
      ScheduledOk(Draw(t, next.rotation[kept.value], kept.value, s.current.value.endsAt, s.current.value.page, host),
                  host);
    } else {
      var u := ClearSlideTimer(t.(current := None));
      FitNone(u, host);
      ShowFromBegins(u, 0, host);
      ShowFromContent(u, 0, host);
      ScheduledOk(ShowFrom(u, 0, host), host);
    }
  }

  lemma FitNone(s: Screen, host: Host)
    requires s.current.None?
    ensures FitOk(s, host)
  {
  }

  lemma TakenFit(s: Screen, next: C.ScreenContent, unit: int, host: Host)
    ensures FitOk(Taken(s, next, unit, host), host)
    ensures s.current.Some? <==> Taken(s, next, unit, host).current.Some?
    ensures s.current.Some?
            ==> FitAs(Taken(s, next, unit, host).current.value, unit, s.current.value.page, host)
                && Taken(s, next, unit, host).current.value.look == s.current.value.look
                && Taken(s, next, unit, host).current.value.id == s.current.value.id
  {
    hide SyncPictures;
    TakenCurrent(s, next, unit, host);
    TakenNow(s, next, unit, host);
    RefitOk(s.(content := Some(next), unit := unit), host);
    FitNow(Refit(s.(content := Some(next), unit := unit), host), Taken(s, next, unit, host), host);
  }

  lemma EndOk(s: Screen, unit: int, host: Host)
    requires ScreenOk(s, host) && (s.destroyed ==> s.content.None? && s.current.None?)
    ensures ScreenOk(Message(s, unit), host) && ScreenOk(Destroy(s), host)
  {
    hide HeldIds, LookOf, Showable;
  }

  lemma StepScreen(s: Screen, step: Step, host: Host)
    requires GoodHost(host) && Inv(s) && Possible(s, step) && ScreenOk(s, host)
    ensures ScreenOk(Do(s, step, host), host)
  {
    hide Inv, Show, Message, Destroy, Settle, PictureFailed, Advance, Tick, Resize, ScreenOk, UrlOf;
    InvNow(s, step);
    var t := s.(now := step.at);
    ScreenOkNow(s, step.at, host);
    NothingOn(t);
    match step {
      case ShowStep(_, next, unit) =>
        if t.destroyed { ShowDestroyed(t, next, unit, host); } else { ShowOk(t, next, unit, host); }
      case MessageStep(_, unit) => Ending(t, unit, host);
      case DestroyStep(_) => Ending(t, 0, host);
      case SettleStep(_, id, url) => SettleOk(t, id, url, host);
      case ImageErrorStep(_, ref) => PictureFailedOk(t, ref, host);
      case SlideTimerStep(_, handle) => FiringOk(t, handle, host);
      case MinuteTimerStep(_) => TickOk(t, host);
      case ResizeStep(_, unit) => ResizeOk(t, unit, host);
    }
  }

  lemma Ending(s: Screen, unit: int, host: Host)
    requires Inv(s) && ScreenOk(s, host)
    ensures ScreenOk(Message(s, unit), host) && ScreenOk(Destroy(s), host)
  {
    hide Ledger, OnScreen, UntilOf, LookOk, FitOk, EmptyOk;
    EndOk(s, unit, host);
  }

  lemma FiringOk(s: Screen, handle: nat, host: Host)
    requires Inv(s) && ScreenOk(s, host)
    ensures ScreenOk(TimerFires(s, handle, host), host)
  {
    hide Advance, ShowFrom, Begun, LookOf, Showable, UrlOf, UntilOf, Ledger;
    NothingOn(s);
    var t := s.(timers := s.timers - {handle});
    FitSame(s, t, host);
    AdvanceContent(t, host);
    AdvanceBooks(t, host);
    if t.content.Some? {
      AdvanceBegins(t, host);
      BegunOk(Advance(t, host), host);
    } else {
      AdvanceNothing(t, host);
      NoScreen(Advance(t, host), host);
    }
  }

  lemma AdvanceNothing(s: Screen, host: Host)
    requires s.content.None? && s.current.None?
    ensures Advance(s, host) == s.(slideTimer := None)
  {
  }

  lemma MountedScreen(now: int, unit: int, host: Host)
    ensures ScreenOk(Mounted(now, unit), host)
  {
  }

  lemma {:induction false} RunScreen(now: int, unit: int, steps: seq<Step>, host: Host)
    requires GoodHost(host) && PossibleRun(Mounted(now, unit), steps, host)
    ensures ScreenOk(Run(Mounted(now, unit), steps, host), host)
  {
    hide Inv, Do, Possible, Mounted, ScreenOk;
    if steps == [] {
      MountedScreen(now, unit, host);
    } else {
      RunScreen(now, unit, steps[..|steps| - 1], host);
      RunKeeps(now, unit, steps[..|steps| - 1], host);
      StepScreen(Run(Mounted(now, unit), steps[..|steps| - 1], host), steps[|steps| - 1], host);
    }
  }

  /** The slide on screen shows the URL, which an entry for its own picture holds. */
  ghost predicate ShowsUrl(s: Screen, url: Text)
    requires SlideAt(s).Some?
  {
    exists ref, k :: RefersTo(SlideAt(s).value, ref) && k in s.pictures && SamePicture(s.pictures[k].ref, ref)
                     && s.pictures[k].state.Ready? && s.pictures[k].url == Some(url)
  }

  /** What the slide on screen is drawn from, at a time. */
  ghost predicate LooksAs(s: Screen, t: int, host: Host)
    requires s.current.Some? && s.content.Some? && SlideAt(s).Some?
  {
    var look, content := s.current.value.look, s.content.value;
    && look.slide == SlideAt(s).value && look.locale == content.locale && look.timeZone == content.timeZone
    && look.minute == (if look.slide.body.Availability? then Some(t / MINUTE) else None)
    && look.day == host.dayStart(t, content.timeZone)
    && forall url :: look.url == Some(url) <==> ShowsUrl(s, url)
  }

  lemma UrlIsShown(s: Screen, url: Text)
    requires PicturesOk(s) && AllPlain(s) && s.content.Some? && SlideAt(s).Some? && Ledger(s)
    ensures ShowsUrl(s, url)
            <==> PictureOf(SlideAt(s).value).Some? && UrlOf(s.pictures, PictureOf(SlideAt(s).value).value) == Some(url)
  {
    hide KeyOf, PlainId, PictureOf, RefersTo, Ledger, PicturesOk, AllPlain, SamePicture;
    var slide := SlideAt(s).value;
    forall ref: C.PictureRef ensures RefersTo(slide, ref) <==> PictureOf(slide) == Some(ref) {
      RefersIs(slide, ref);
    }
    if PictureOf(slide).Some? {
      var own := PictureOf(slide).value;
      ShownHasEntry(s, s.current.value.index, own);
      forall k | k in s.pictures && SamePicture(s.pictures[k].ref, own) ensures k == KeyOf(own) {
        SamePictures(s.pictures[k].ref, own, s.pictures[KeyOf(own)].ref);
        OneEntry(s, k, KeyOf(own));
      }
    }
  }

  lemma SamePictures(a: C.PictureRef, b: C.PictureRef, c: C.PictureRef)
    requires SamePicture(a, b) && SamePicture(c, b)
    ensures SamePicture(a, c)
  {
  }

  lemma DrawnLooks(s: Screen, t: int, host: Host)
    requires DrawnAt(s, t, host) && PicturesOk(s) && AllPlain(s) && Ledger(s)
    ensures LooksAs(s, t, host)
  {
    hide KeyOf, Ledger, PicturesOk, AllPlain, ShowsUrl, UrlOf, PictureOf;
    forall url ensures s.current.value.look.url == Some(url) <==> ShowsUrl(s, url) {
      UrlIsShown(s, url);
    }
  }

  /**
   Over every possible run of documents with plain ids: what is on screen is drawn from the document's own slide, in its
   language and time zone, with the URL that an entry for that slide's picture holds and none otherwise, and as of a
   time within the minute that ends with the next tick. An availability slide tells the minute it is.
   */
  lemma LooksRight(now: int, unit: int, steps: seq<Step>, host: Host) returns (t: int)
    requires GoodHost(host) && PossibleRun(Mounted(now, unit), steps, host) && PlainRun(steps)
    ensures var r := Run(Mounted(now, unit), steps, host);
            r.current.Some? ==>
              && r.content.Some? && SlideAt(r).Some? && r.minuteTimer.Some? && LooksAs(r, t, host)
              && r.minuteTimer.value - MINUTE <= t <= r.now <= r.minuteTimer.value
              && (SlideAt(r).value.body.Availability? && r.now < r.minuteTimer.value
                  ==> r.current.value.look.minute == Some(r.now / MINUTE))
  {
    hide Run, PossibleRun, Mounted, Ledger, OfKey, OfDocument, AllPlain, LookOf, LooksAs, OnScreen, FitOk, EmptyOk;
    var r := Run(Mounted(now, unit), steps, host);
    RunScreen(now, unit, steps, host);
    RunKeeps(now, unit, steps, host);
    RunPictures(now, unit, steps, host);
    NothingOn(r);
    t := r.now;
    if r.current.Some? {
      t :| r.minuteTimer.value - MINUTE <= t <= r.now && DrawnAt(r, t, host);
      DrawnLooks(r, t, host);
      SameMinute(t, r.now, r.minuteTimer.value);
      LooksMinute(r, t, host);
    }
  }

  lemma LooksMinute(s: Screen, t: int, host: Host)
    requires s.current.Some? && s.content.Some? && SlideAt(s).Some? && LooksAs(s, t, host)
    ensures SlideAt(s).value.body.Availability? ==> s.current.value.look.minute == Some(t / MINUTE)
  {
    hide ShowsUrl;
  }

  lemma SameMinute(t: int, now: int, tick: int)
    requires tick % MINUTE == 0 && tick - MINUTE <= t <= now <= tick
    ensures now < tick ==> t / MINUTE == now / MINUTE
  {
    var m := tick / MINUTE;
    assert tick == m * MINUTE;
    if now < tick {
      OfMinute(m - 1, t);
      OfMinute(m - 1, now);
    }
  }

  lemma OfMinute(m: int, t: int)
    requires m * MINUTE <= t < m * MINUTE + MINUTE
    ensures t / MINUTE == m
  {
  }

  /** After every tick of the minute it is as of that very moment: the minute, and the day. */
  lemma TickLooksNow(now: int, unit: int, steps: seq<Step>, step: Step, host: Host)
    requires GoodHost(host) && PossibleRun(Mounted(now, unit), steps + [step], host) && PlainRun(steps + [step])
    requires step.MinuteTimerStep?
    ensures var r := Run(Mounted(now, unit), steps + [step], host);
            r.current.Some? ==> r.content.Some? && SlideAt(r).Some? && r.now == step.at && LooksAs(r, step.at, host)
  {
    hide Run, PossibleRun, Mounted, LooksAs, Inv, Do, Possible, ScreenOk;
    var t := LooksRight(now, unit, steps + [step], host);
    LastStep(Mounted(now, unit), steps, step, host);
    var s := Run(Mounted(now, unit), steps, host);
    RunKeeps(now, unit, steps, host);
    RunScreen(now, unit, steps, host);
    TickSchedules(s, step, host);
  }

  lemma LastStep(s: Screen, steps: seq<Step>, step: Step, host: Host)
    ensures Run(s, steps + [step], host) == Do(Run(s, steps, host), step, host)
    ensures PossibleRun(s, steps + [step], host)
            <==> PossibleRun(s, steps, host) && Possible(Run(s, steps, host), step)
  {
    hide Do, Possible;
    var all := steps + [step];
    assert all[..|all| - 1] == steps;
  }

  lemma TickSchedules(s: Screen, step: Step, host: Host)
    requires Inv(s) && step.MinuteTimerStep? && Possible(s, step) && ScreenOk(s, host)
    ensures var r := Do(s, step, host);
            r.now == step.at && (r.current.Some? ==> r.minuteTimer.Some? && r.minuteTimer.value - MINUTE == r.now)
  {
    hide ShowFrom, DrawOrLeave, LookOf, Ledger, UrlOf, UntilOf, FitOk, EmptyOk;
    var t := s.(now := step.at);
    TickBooks(t, host);
    TickContent(t, host);
  }

  /**
   Over every possible run of documents with plain ids: a URL on screen is one that was handed back, to a request for
   the very file and version that the slide on screen refers to.
   */
  lemma UrlIsItsOwn(now: int, unit: int, steps: seq<Step>, host: Host)
    requires GoodHost(host) && PossibleRun(Mounted(now, unit), steps, host) && PlainRun(steps)
    requires var r := Run(Mounted(now, unit), steps, host); r.current.Some? && r.current.value.look.url.Some?
    ensures var r := Run(Mounted(now, unit), steps, host);
            && SlideAt(r).Some?
            && exists own, asked, j: nat ::
                 RefersTo(SlideAt(r).value, own) && SamePicture(asked, own)
                 && BroughtAt(now, unit, steps, host, asked, r.current.value.look.url.value, j)
  {
    hide Run, PossibleRun, Mounted, RefersTo, SamePicture, BroughtAt;
    var t := LooksRight(now, unit, steps, host);
    var r := Run(Mounted(now, unit), steps, host);
    var url := r.current.value.look.url.value;
    assert ShowsUrl(r, url);
    var own, k :| RefersTo(SlideAt(r).value, own) && k in r.pictures && SamePicture(r.pictures[k].ref, own)
                  && r.pictures[k].state.Ready? && r.pictures[k].url == Some(url);
    RunUrls(now, unit, steps, host, k);
  }

  /** A slide cannot be shown: its time is over, or it is a picture slide whose picture is not there. */
  ghost predicate CannotShow(s: Screen, slide: C.Slide) {
    || (slide.until.Some? && TimeOf(slide.until.value) <= s.now)
    || (slide.body.Picture?
        && forall k :: k in s.pictures && SamePicture(s.pictures[k].ref, slide.body.picture)
                       ==> !s.pictures[k].state.Ready?)
  }

  lemma CannotShowIff(s: Screen, i: nat)
    requires PicturesOk(s) && AllPlain(s) && Ledger(s) && s.content.Some? && i < |s.content.value.rotation|
    ensures CannotShow(s, s.content.value.rotation[i]) <==> !Showable(s, s.content.value.rotation[i])
  {
    hide KeyOf, PlainId, SamePicture, PicturesOk, AllPlain;
    var slide := s.content.value.rotation[i];
    if slide.body.Picture? {
      var own := slide.body.picture;
      ShownHasEntry(s, i, own);
      assert EntryOk(s, KeyOf(own), s.pictures[KeyOf(own)]);
      forall k | k in s.pictures && SamePicture(s.pictures[k].ref, own) ensures k == KeyOf(own) {
        SamePictures(s.pictures[k].ref, own, s.pictures[KeyOf(own)].ref);
        OneEntry(s, k, KeyOf(own));
      }
    }
  }

  /**
   Over every possible run of documents with plain ids: while there is a document, the screen is empty only when none of
   its slides can be shown; and the page on screen, with how many there are, is what the look comes to on the canvas.
   */
  lemma NeverNeedlesslyEmpty(now: int, unit: int, steps: seq<Step>, host: Host)
    requires GoodHost(host) && PossibleRun(Mounted(now, unit), steps, host) && PlainRun(steps)
    ensures var r := Run(Mounted(now, unit), steps, host);
            && (r.content.Some? && r.current.None? ==>
                  forall i :: 0 <= i < |r.content.value.rotation| ==> CannotShow(r, r.content.value.rotation[i]))
            && (r.current.Some? ==> exists asked: nat ::
                  && r.current.value.page == host.fit(r.current.value.look, r.unit, asked).page
                  && r.current.value.pages == host.fit(r.current.value.look, r.unit, asked).pages)
  {
    hide Run, PossibleRun, Mounted, Ledger, OfKey, OfDocument, AllPlain, CannotShow, LookOk, Showable;
    var r := Run(Mounted(now, unit), steps, host);
    RunScreen(now, unit, steps, host);
    RunPictures(now, unit, steps, host);
    if r.content.Some? && r.current.None? {
      forall i | 0 <= i < |r.content.value.rotation| ensures CannotShow(r, r.content.value.rotation[i]) {
        CannotShowIff(r, i);
      }
    }
    if r.current.Some? {
      var asked: nat :| FitAs(r.current.value, r.unit, asked, host);
    }
  }

  // ---------- The page a stay is of, and the slides that come on ----------

  /** The page on screen is the one it was, or what that one comes to when it is fitted again. */
  ghost predicate SameFit(s: Screen, r: Screen, host: Host)
    requires s.current.Some?
  {
    && r.current.Some?
    && ((r.current.value.page == s.current.value.page && r.current.value.pages == s.current.value.pages)
        || FitAs(r.current.value, r.unit, s.current.value.page, host))
  }

  /** It is not fitted again while it looks as it did. */
  ghost predicate Alike(s: Screen, r: Screen)
    requires s.current.Some?
  {
    r.current.Some? && r.current.value.look == s.current.value.look
    ==> r.current.value.page == s.current.value.page && r.current.value.pages == s.current.value.pages
  }

  lemma DrawFit(s: Screen, t: Screen, slide: C.Slide, index: nat, endsAt: int, host: Host)
    requires s.current.Some? && t.current == s.current && t.unit == s.unit && t.content.Some? && FitOk(s, host)
    requires index < |t.content.value.rotation| && t.content.value.rotation[index] == slide
    requires slide.id == s.current.value.id
    ensures SameFit(s, Draw(t, slide, index, endsAt, s.current.value.page, host), host)
            && Alike(s, Draw(t, slide, index, endsAt, s.current.value.page, host))
  {
    hide Draw;
    FitNow(s, t, host);
    DrawIsFresh(t, slide, index, endsAt, s.current.value.page, host);
  }

  lemma PictureChangedFit(s: Screen, r0: Screen, key: Text, host: Host)
    requires s.current.Some? && r0.current == s.current && r0.unit == s.unit && FitOk(s, host)
    requires r0.content.Some? && SlideAt(r0).Some? && SlideAt(r0).value.id == s.current.value.id
    requires !LosesPicture(r0, key) && Drawable(r0.pictures, SlideAt(r0).value)
    ensures SameFit(s, PictureChanged(r0, key, host), host) && Alike(s, PictureChanged(r0, key, host))
  {
    hide Draw, Advance, ShowFrom, UrlOf, KeyOf, LookOf;
    DrawFit(s, r0, SlideAt(r0).value, r0.current.value.index, r0.current.value.endsAt, host);
  }

  lemma SettleFit(s: Screen, id: nat, url: Option<Text>, host: Host)
    requires Inv(s) && FitOk(s, host) && id in s.pending && s.current.Some?
    ensures SameFit(s, Settle(s, id, url, host), host) && Alike(s, Settle(s, id, url, host))
  {
    hide PictureChanged, KeyOf, FitOk, UntilOf, UrlOf;
    NothingOn(s);
    var key := s.pending[id].key;
    if !s.destroyed && key in s.pictures && s.pictures[key].id == id {
      assert EntryOk(s, key, s.pictures[key]);
      var entry := s.pictures[key].(state := if url.None? then Failed else Ready, url := url);
      var r := s.(pending := s.pending - {id}, handed := if url.Some? then s.handed + {id} else s.handed,
                  pictures := s.pictures[key := entry]);
      forall ref: C.PictureRef | KeyOf(ref) != key ensures UrlOf(r.pictures, ref) == UrlOf(s.pictures, ref) {
        UrlElsewhere(s.pictures, key, entry, ref);
      }
      StillDrawn(s, r, key);
      NotLost(s, r, key);
      PictureChangedFit(s, r, key, host);
    }
  }

  /** An entry that waited had no URL to lose. */
  lemma NotLost(s: Screen, r: Screen, key: Text)
    requires OnScreen(s) && s.current.Some? && key in s.pictures && !s.pictures[key].state.Ready?
             && r.content == s.content && r.current == s.current
    ensures !LosesPicture(r, key)
  {
    hide KeyOf, UntilOf;
  }

  lemma PictureFailedFit(s: Screen, ref: C.PictureRef, host: Host)
    requires Inv(s) && FitOk(s, host) && s.current.Some? && !BreaksCurrent(s, ref)
    ensures SameFit(s, PictureFailed(s, ref, host), host) && Alike(s, PictureFailed(s, ref, host))
  {
    hide PictureChanged, KeyOf, FitOk, UntilOf, UrlOf, Ledger;
    NothingOn(s);
    var key := KeyOf(ref);
    if key in s.pictures && s.pictures[key].state.Ready? {
      var entry := s.pictures[key].(state := Failed, url := None);
      var r := Release(s, s.pictures[key]).(pictures := s.pictures[key := entry]);
      forall other: C.PictureRef | KeyOf(other) != key ensures UrlOf(r.pictures, other) == UrlOf(s.pictures, other) {
        UrlElsewhere(s.pictures, key, entry, other);
      }
      StillDrawn(s, r, key);
      PictureChangedFit(s, r, key, host);
    }
  }

  lemma TickFit(s: Screen, host: Host)
    requires Inv(s) && FitOk(s, host) && s.current.Some?
    ensures SameFit(s, Tick(s, host), host) && Alike(s, Tick(s, host))
  {
    hide Draw, Advance, ShowFrom, UrlOf, UntilOf, LookOf, Ledger, FitOk;
    NothingOn(s);
    var t := s.(minuteTimer := None);
    DrawFit(s, t, SlideAt(t).value, t.current.value.index, t.current.value.endsAt, host);
  }

  lemma ShowFit(s: Screen, next: C.ScreenContent, unit: int, host: Host)
    requires !s.destroyed && s.current.Some? && KeptAt(Taken(s, next, unit, host), next, s.current).Some?
    ensures SameFit(s, Show(s, next, unit, host), host)
  {
    hide Taken, Draw, ShowFrom, UntilOf, UrlOf, LookOf, Showable, KeptAt, FitOk;
    var t := Taken(s, next, unit, host);
    TakenContent(s, next, unit, host);
    TakenFit(s, next, unit, host);
    TakenNow(s, next, unit, host);
    var kept := KeptAt(t, next, s.current).value;
    DrawIsFresh(t, next.rotation[kept], kept, s.current.value.endsAt, s.current.value.page, host);
    DrawContent(t, next.rotation[kept], kept, s.current.value.endsAt, s.current.value.page, host);
  }

  /**
   A step that leaves the page on screen leaves it the page it was, fitted again at most; and only a document or a
   change of the canvas has a page fitted again that looks as it did.
   */
  lemma PageKept(s: Screen, step: Step, host: Host)
    requires GoodHost(host) && Inv(s) && ScreenOk(s, host) && Possible(s, step) && s.current.Some?
             && !LeavesPage(s, step, host)
    ensures SameFit(s, Do(s, step, host), host)
    ensures !step.ShowStep? && !step.ResizeStep? ==> Alike(s, Do(s, step, host))
  {
    hide Inv, Show, Settle, PictureFailed, Tick, Refit, KeptAt, Taken, KeyOf, UrlOf, LookOk, EmptyOk, FitOk;
    InvNow(s, step);
    var t := s.(now := step.at);
    FitNow(s, t, host);
    match step {
      case ShowStep(_, next, unit) =>
        KeptIff(t, next, unit, host);
        ContinuesNow(s, next, step.at);
        ShowFit(t, next, unit, host);
      case SettleStep(_, id, url) => SettleFit(t, id, url, host);
      case ImageErrorStep(_, ref) => PictureFailedFit(t, ref, host);
      case MinuteTimerStep(_) => TickFit(t, host);
      case ResizeStep(_, unit) =>
        RefitOk(t.(unit := unit), host);
        RefitSome(t.(unit := unit), host);
    }
  }

  lemma RefitSome(s: Screen, host: Host)
    ensures s.current.Some? ==> Refit(s, host).current.Some? && Refit(s, host).unit == s.unit
  {
  }

  /** The slide on screen can be shown now. */
  ghost predicate ShowsNow(r: Screen) {
    r.current.Some? ==> SlideAt(r).Some? && ShowsAt(r, SlideAt(r).value, r.now)
  }

  lemma BegunShows(r: Screen, host: Host)
    requires Begun(r, host)
    ensures ShowsNow(r)
  {
    hide UrlOf, LookOf, FitOk;
  }

  lemma ChangedComes(s: Screen, r0: Screen, key: Text, host: Host)
    requires r0.current == s.current && s.current.None? && (r0.content.Some? ==> FitOk(r0, host))
    ensures ShowsNow(PictureChanged(r0, key, host))
  {
    hide ShowFrom, Begun, UrlOf, FitOk, ShowsAt;
    if r0.content.Some? {
      ShowFromBegins(r0, 0, host);
      BegunShows(ShowFrom(r0, 0, host), host);
    }
  }

  lemma SettleComes(s: Screen, id: nat, url: Option<Text>, host: Host)
    requires id in s.pending && s.current.None?
    ensures ShowsNow(Settle(s, id, url, host))
  {
    hide PictureChanged, ShowsAt, FitOk;
    var key := s.pending[id].key;
    if !s.destroyed && key in s.pictures && s.pictures[key].id == id {
      var entry := s.pictures[key].(state := if url.None? then Failed else Ready, url := url);
      var r := s.(pending := s.pending - {id}, handed := if url.Some? then s.handed + {id} else s.handed,
                  pictures := s.pictures[key := entry]);
      FitNone(r, host);
      ChangedComes(s, r, key, host);
    }
  }

  lemma PictureFailedComes(s: Screen, ref: C.PictureRef, host: Host)
    requires Inv(s) && FitOk(s, host) && (s.current.None? || BreaksCurrent(s, ref))
    ensures ShowsNow(PictureFailed(s, ref, host))
  {
    hide ShowFrom, Advance, KeyOf, ShowsAt, FitOk, Begun, Ledger, UntilOf, DrawOrLeave;
    NothingOn(s);
    var key := KeyOf(ref);
    if key in s.pictures && s.pictures[key].state.Ready? {
      var r := Release(s, s.pictures[key]).(pictures := s.pictures[key := s.pictures[key].(state := Failed,
                                                                                           url := None)]);
      FitNow(s, r, host);
      if r.current.None? {
        ChangedComes(s, r, key, host);
      } else {
        assert LosesPicture(r, key);
        AdvanceBegins(r, host);
        BegunShows(Advance(r, host), host);
      }
    } else if s.current.Some? {
      OnlyWithUrl(s, ref);
    }
  }

  lemma OnlyWithUrl(s: Screen, ref: C.PictureRef)
    requires OnScreen(s) && s.current.Some? && BreaksCurrent(s, ref)
    ensures KeyOf(ref) in s.pictures && s.pictures[KeyOf(ref)].state.Ready?
  {
    hide KeyOf, UntilOf;
  }

  lemma ScheduledShows(s: Screen)
    requires ShowsNow(s)
    ensures ShowsNow(ScheduleTick(s))
  {
    hide UrlOf;
  }

  /** A page that comes on in a step, where none was or one may leave, is of a slide that can be shown then. */
  lemma ComesOnInTime(s: Screen, step: Step, host: Host)
    requires GoodHost(host) && Inv(s) && ScreenOk(s, host) && Possible(s, step)
    requires s.current.None? || LeavesPage(s, step, host)
    ensures ShowsNow(Do(s, step, host))
  {
    hide Inv, Show, Settle, PictureFailed, Advance, ShowFrom, Taken, KeptAt, KeyOf, UrlOf, LookOk, EmptyOk, FitOk,
         Begun, ShowsAt, Tick, Draw;
    InvNow(s, step);
    var t := s.(now := step.at);
    FitNow(s, t, host);
    NothingOn(t);
    match step {
      case ShowStep(_, next, unit) =>
        ContinuesNow(s, next, step.at);
        ShowComes(t, next, unit, host);
      case MessageStep(_, unit) => EndsScreen(t, unit);
      case DestroyStep(_) => EndsScreen(t, 0);
      case SettleStep(_, id, url) => SettleComes(t, id, url, host);
      case ImageErrorStep(_, ref) =>
        SameBreaks(s, t, ref);
        PictureFailedComes(t, ref, host);
      case SlideTimerStep(_, handle) => FiringComes(t, handle, host);
      case MinuteTimerStep(_) => TickComes(t, host);
      case ResizeStep(_, unit) => NoneRefit(t, unit, host);
    }
  }

  lemma SameBreaks(s: Screen, t: Screen, ref: C.PictureRef)
    requires t.current == s.current && t.content == s.content
    ensures BreaksCurrent(t, ref) <==> BreaksCurrent(s, ref)
  {
    hide KeyOf;
  }

  lemma NoneRefit(s: Screen, unit: int, host: Host)
    requires s.current.None?
    ensures Resize(s, unit, host).current.None?
  {
  }

  lemma EndsScreen(s: Screen, unit: int)
    requires Inv(s)
    ensures Message(s, unit).current.None? && Destroy(s).current.None?
  {
    hide Ledger, OnScreen, HeldIds;
  }

  lemma ShowComes(s: Screen, next: C.ScreenContent, unit: int, host: Host)
    requires Inv(s) && !Continues(s, next, s.now)
    ensures ShowsNow(Show(s, next, unit, host))
  {
    hide Taken, ShowFrom, Draw, Begun, ShowsAt, FitOk, Showable, Continues, Ledger, OnScreen, KeptAt;
    if s.destroyed {
      ShowDestroyed(s, next, unit, host);
    } else {
      KeptIff(s, next, unit, host);
      TakenContent(s, next, unit, host);
      var u := ClearSlideTimer(Taken(s, next, unit, host).(current := None));
      FitNone(u, host);
      ShowFromBegins(u, 0, host);
      BegunShows(ShowFrom(u, 0, host), host);
      ScheduledShows(ShowFrom(u, 0, host));
    }
  }

  lemma FiringComes(s: Screen, handle: nat, host: Host)
    requires Inv(s) && FitOk(s, host)
    ensures ShowsNow(TimerFires(s, handle, host))
  {
    hide Advance, Begun, ShowsAt, FitOk, Ledger, UntilOf, UrlOf;
    NothingOn(s);
    var t := s.(timers := s.timers - {handle});
    FitNow(s, t, host);
    if t.content.Some? {
      AdvanceBegins(t, host);
      BegunShows(Advance(t, host), host);
    } else {
      AdvanceNothing(t, host);
    }
  }

  lemma TickComes(s: Screen, host: Host)
    requires Inv(s) && s.current.None?
    ensures ShowsNow(Tick(s, host))
  {
    hide ShowFrom, DrawOrLeave, Begun, ShowsAt, FitOk, Ledger, LookOf;
    var t := s.(minuteTimer := None);
    if !s.destroyed && s.content.Some? {
      FitNone(t, host);
      ShowFromBegins(t, 0, host);
      BegunShows(ShowFrom(t, 0, host), host);
      ScheduledShows(ShowFrom(t, 0, host));
    }
  }

  // ---------- The ends ----------

  /**
   A message and `destroy` leave no document, no page, no slide timer known and no picture: each URL handed back has
   been released once. `destroy` leaves no tick either, and nothing is drawn, asked for or armed any more.
   */
  lemma EndsAll(s: Screen, step: Step, host: Host)
    requires Ledger(s) && !s.destroyed && (step.MessageStep? || step.DestroyStep?)
    ensures var r := Do(s, step, host);
            && r.content.None? && r.current.None? && r.slideTimer.None? && r.pictures == map[]
            && (forall id :: id in s.handed ==> r.released[id] == 1) && r.asked == s.asked && r.armed == s.armed
            && r.destroyed == step.DestroyStep? && (step.DestroyStep? ==> r.minuteTimer.None?)
            && (step.MessageStep? ==> r.minuteTimer == s.minuteTimer)
  {
    hide HeldIds, EntryOk;
    StepLedger(s, step, host);
    NoneHeld(Do(s, step, host));
  }

  lemma NoneHeld(s: Screen)
    requires Ledger(s) && s.pictures == map[]
    ensures forall id :: id in s.handed ==> s.released[id] == 1
  {
    assert HeldIds(s.pictures) == {};
  }

  lemma DestroyedForGood(s: Screen, step: Step, host: Host)
    requires Inv(s) && s.destroyed
    ensures var r := Do(s, step, host);
            && r.destroyed && r.content.None? && r.current.None? && r.minuteTimer.None? && r.asked == s.asked
            && r.armed == s.armed && r.pictures == s.pictures
  {
    hide HeldIds, OnScreen, DrawOrLeave, Draw, LookOf, UrlOf, UntilOf;
    if step.SlideTimerStep? {
      AdvanceNothing(s.(now := step.at, timers := s.timers - {step.handle}), host);
    }
  }

  // ---------- A timer left behind ----------

  /** The slide timers the browser has armed and the renderer does not know. */
  function Forgotten(s: Screen): set<nat> {
    s.timers.Keys - (if s.slideTimer.Some? then {s.slideTimer.value} else {})
  }

  /** The only slide timer armed is the one the renderer knows. */
  ghost predicate NoOrphan(s: Screen) {
    Forgotten(s) == {}
  }

  lemma ShowFromTimers(s: Screen, from: nat, host: Host)
    requires s.content.Some? && (s.slideTimer.Some? ==> s.slideTimer.value in s.timers)
             && forall h :: h in s.timers ==> h < s.armed
    ensures var r := ShowFrom(s, from, host);
            && r.timers.Keys == Forgotten(s) + (if r.slideTimer.Some? then {r.slideTimer.value} else {})
            && (r.slideTimer.Some? ==> r.slideTimer.value == s.armed) && (r.slideTimer.Some? <==> r.current.Some?)
    ensures Forgotten(ShowFrom(s, from, host)) == Forgotten(s)
  {
    hide LookOf, FitAfter, LeavesAt, FindFrom;
    var index := FindFrom(s, s.content.value.rotation, from, 0);
  }

  /** `advance` forgets the renderer's timer, whether or not it was that one that fired. */
  lemma AdvanceTimers(s: Screen, host: Host)
    requires s.content.Some? && forall h :: h in s.timers ==> h < s.armed
    ensures var r := Advance(s, host);
            && r.timers.Keys == s.timers.Keys + (if r.slideTimer.Some? then {r.slideTimer.value} else {})
            && (r.slideTimer.Some? ==> r.slideTimer.value == s.armed) && (r.slideTimer.Some? <==> r.current.Some?)
    ensures Forgotten(Advance(s, host)) == s.timers.Keys
  {
    hide LookOf, FitAfter, LeavesAt, ShowFrom;
    var t := s.(slideTimer := None);
    ShowFromTimers(t, if t.current.None? then 0 else t.current.value.index + 1, host);
  }

  lemma DrawForgets(s: Screen, slide: C.Slide, index: nat, endsAt: int, page: nat, host: Host)
    requires forall h :: h in s.timers ==> h < s.armed
    ensures Forgotten(Draw(s, slide, index, endsAt, page, host)) == Forgotten(s)
  {
    hide LookOf, FitAfter, LeavesAt;
  }

  lemma PictureChangedForgets(s: Screen, key: Text, host: Host)
    requires TimersArmed(s) && (s.slideTimer.Some? <==> s.current.Some?)
    requires s.current.Some? ==> s.content.Some? && SlideAt(s).Some?
    requires s.current.Some? && !LosesPicture(s, key) ==> Drawable(s.pictures, SlideAt(s).value)
    ensures Forgotten(PictureChanged(s, key, host)) == if LosesPicture(s, key) then s.timers.Keys else Forgotten(s)
  {
    hide Draw, ShowFrom, Advance, KeyOf, UrlOf;
    if s.content.Some? {
      if s.current.None? {
        ShowFromTimers(s, 0, host);
      } else if LosesPicture(s, key) {
        AdvanceTimers(s, host);
      } else {
        DrawForgets(s, SlideAt(s).value, s.current.value.index, s.current.value.endsAt, s.current.value.page, host);
      }
    }
  }

  lemma SettleForgets(s: Screen, id: nat, url: Option<Text>, host: Host)
    requires Inv(s) && id in s.pending
    ensures Forgotten(Settle(s, id, url, host)) == Forgotten(s)
  {
    hide PictureChanged, UntilOf, KeyOf;
    var key := s.pending[id].key;
    if !s.destroyed && key in s.pictures && s.pictures[key].id == id {
      var t := s.(pending := s.pending - {id}, handed := if url.Some? then s.handed + {id} else s.handed);
      var entry := s.pictures[key].(state := if url.None? then Failed else Ready, url := url);
      var r := t.(pictures := t.pictures[key := entry]);
      assert EntryOk(s, key, s.pictures[key]);
      hide Ledger;
      PictureChangedForgets(r, key, host);
    }
  }

  lemma PictureFailedForgets(s: Screen, ref: C.PictureRef, host: Host)
    requires Inv(s)
    ensures Forgotten(PictureFailed(s, ref, host)) == if BreaksCurrent(s, ref) then s.timers.Keys else Forgotten(s)
  {
    hide PictureChanged, UntilOf, KeyOf, Ledger;
    var key := KeyOf(ref);
    if key in s.pictures && s.pictures[key].state.Ready? {
      var t := Release(s, s.pictures[key]);
      var r := t.(pictures := t.pictures[key := s.pictures[key].(state := Failed, url := None)]);
      PictureChangedForgets(r, key, host);
    }
  }

  lemma TickForgets(s: Screen, host: Host)
    requires Inv(s)
    ensures Forgotten(Tick(s, host)) == Forgotten(s)
  {
    hide LookOf, Draw, ShowFrom, Advance, UrlOf, UntilOf, Ledger;
    var t := s.(minuteTimer := None);
    if !s.destroyed && s.content.Some? {
      if s.current.None? {
        ShowFromTimers(t, 0, host);
      } else {
        DrawForgets(t, SlideAt(t).value, t.current.value.index, t.current.value.endsAt, t.current.value.page, host);
      }
    }
  }

  lemma ShowForgets(s: Screen, next: C.ScreenContent, unit: int, host: Host)
    requires GoodHost(host) && Inv(s)
    ensures Forgotten(Show(s, next, unit, host)) == Forgotten(s)
  {
    hide Ledger, Taken, Draw, ShowFrom, UntilOf, UrlOf, KeptAt;
    if !s.destroyed {
      TakenShape(s, next, unit, host);
      var t := Taken(s, next, unit, host);
      var kept := KeptAt(t, next, s.current);
      if kept.Some? {
        DrawForgets(t, next.rotation[kept.value], kept.value, s.current.value.endsAt, s.current.value.page, host);
      } else {
        ShowFromTimers(ClearSlideTimer(t.(current := None)), 0, host);
      }
    }
  }

  lemma EndForgets(s: Screen, unit: int)
    ensures Forgotten(Message(s, unit)) == Forgotten(s) && Forgotten(Destroy(s)) == Forgotten(s)
  {
    hide HeldIds;
  }

  lemma FiringForgets(s: Screen, handle: nat, host: Host)
    requires Inv(s)
    ensures Forgotten(TimerFires(s, handle, host)) == s.timers.Keys - {handle}
  {
    hide ShowFrom, Draw, Ledger, UrlOf, UntilOf;
    var t := s.(timers := s.timers - {handle});
    if s.content.Some? {
      AdvanceTimers(t, host);
    } else {
      ShowFromNothing(t.(slideTimer := None), 0, host);
    }
  }

  /** Whether a step is the image error of the picture slide on screen. */
  predicate Breaks(s: Screen, step: Step) {
    step.ImageErrorStep? && BreaksCurrent(s, step.ref)
  }

  /**
   What every step makes of the timers forgotten: the image error of the picture slide on screen adds the renderer's
   own, as `advance` then runs without it having fired; a timer that fires is gone, and when it was a forgotten one, the
   renderer's own is forgotten in its place; and nothing else makes a difference.
   */
  lemma ForgottenAre(s: Screen, step: Step, host: Host)
    requires GoodHost(host) && Inv(s) && Possible(s, step)
    ensures Forgotten(Do(s, step, host))
            == if step.SlideTimerStep? then s.timers.Keys - {step.handle}
               else if Breaks(s, step) then s.timers.Keys else Forgotten(s)
  {
    hide Inv, Show, Settle, PictureFailed, TimerFires, Tick, Message, Destroy, BreaksCurrent;
    InvNow(s, step);
    var t := s.(now := step.at);
    BreaksNow(s, step);
    match step {
      case ShowStep(_, next, unit) => ShowForgets(t, next, unit, host);
      case MessageStep(_, unit) => EndForgets(t, unit);
      case DestroyStep(_) => EndForgets(t, 0);
      case SettleStep(_, id, url) => SettleForgets(t, id, url, host);
      case ImageErrorStep(_, ref) => PictureFailedForgets(t, ref, host);
      case SlideTimerStep(_, handle) => FiringForgets(t, handle, host);
      case MinuteTimerStep(_) => TickForgets(t, host);
      case ResizeStep(_, unit) =>
    }
  }

  lemma BreaksNow(s: Screen, step: Step)
    ensures Breaks(s.(now := step.at), step) == Breaks(s, step)
  {
    hide KeyOf;
  }

  /** In any state, forgotten timers or none, a step leaves one more behind exactly when it is that image error. */
  lemma OrphanIff(s: Screen, step: Step, host: Host)
    requires GoodHost(host) && Inv(s) && Possible(s, step)
    ensures |Forgotten(Do(s, step, host))| <= |Forgotten(s)| + 1
    ensures |Forgotten(Do(s, step, host))| > |Forgotten(s)| <==> Breaks(s, step)
    ensures NoOrphan(s) ==> (NoOrphan(Do(s, step, host)) <==> !Breaks(s, step))
  {
    hide Do, Inv, Forgotten, Breaks;
    ForgottenAre(s, step, host);
    KnownTimer(s, step);
    var known := if s.slideTimer.Some? then {s.slideTimer.value} else {};
    if step.SlideTimerStep? {
      OneOut(s.timers.Keys, known, step.handle);
    } else if Breaks(s, step) {
      assert |s.timers.Keys - known| == |s.timers.Keys| - 1;
    }
    NoneCounted(s);
    NoneCounted(Do(s, step, host));
  }

  lemma KnownTimer(s: Screen, step: Step)
    requires Inv(s) && Possible(s, step)
    ensures Forgotten(s) == s.timers.Keys - (if s.slideTimer.Some? then {s.slideTimer.value} else {})
    ensures s.slideTimer.Some? ==> s.slideTimer.value in s.timers
    ensures Breaks(s, step) ==> s.slideTimer.Some?
    ensures step.SlideTimerStep? ==> step.handle in s.timers && !Breaks(s, step)
  {
    hide Ledger, KeyOf, UrlOf;
  }

  lemma NoneCounted(s: Screen)
    ensures NoOrphan(s) <==> |Forgotten(s)| == 0
  {
  }

  lemma OneOut(timers: set<nat>, known: set<nat>, handle: nat)
    requires handle in timers && known <= timers && |known| <= 1
    ensures |timers - {handle}| <= |timers - known|
  {
    assert |timers - known| == |timers| - |known|;
  }

  /** How often in a run the picture slide on screen breaks. */
  function BreaksIn(s: Screen, steps: seq<Step>, host: Host): nat {
    if steps == [] then 0
    else
      var front := steps[..|steps| - 1];
      BreaksIn(s, front, host) + (if Breaks(Run(s, front, host), steps[|steps| - 1]) then 1 else 0)
  }

  /** Over every run there are never more timers forgotten than that, and none before the first time. */
  lemma {:induction false} ForgottenOverRun(now: int, unit: int, steps: seq<Step>, host: Host)
    requires GoodHost(host) && PossibleRun(Mounted(now, unit), steps, host)
    ensures |Forgotten(Run(Mounted(now, unit), steps, host))| <= BreaksIn(Mounted(now, unit), steps, host)
    ensures BreaksIn(Mounted(now, unit), steps, host) == 0 ==> NoOrphan(Run(Mounted(now, unit), steps, host))
  {
    hide Do, Possible, Forgotten, Breaks, Inv, Mounted;
    if steps == [] {
      NothingMounted(now, unit);
    } else {
      var front := steps[..|steps| - 1];
      ForgottenOverRun(now, unit, front, host);
      RunKeeps(now, unit, front, host);
      OrphanIff(Run(Mounted(now, unit), front, host), steps[|steps| - 1], host);
    }
  }

  lemma NothingMounted(now: int, unit: int)
    ensures Forgotten(Mounted(now, unit)) == {}
  {
  }

  /** No slide timer is forgotten at any moment of a run. */
  ghost predicate NeverForgets(s: Screen, steps: seq<Step>, host: Host) {
    NoOrphan(Run(s, steps, host)) && (steps == [] || NeverForgets(s, steps[..|steps| - 1], host))
  }

  /** That is so exactly when the picture slide on screen never breaks in it. */
  lemma {:induction false} NeverForgetsIff(now: int, unit: int, steps: seq<Step>, host: Host)
    requires GoodHost(host) && PossibleRun(Mounted(now, unit), steps, host)
    ensures NeverForgets(Mounted(now, unit), steps, host) <==> BreaksIn(Mounted(now, unit), steps, host) == 0
  {
    hide Do, Possible, NoOrphan, Breaks, Inv, Mounted, Forgotten;
    ForgottenOverRun(now, unit, steps, host);
    if steps != [] {
      var front := steps[..|steps| - 1];
      NeverForgetsIff(now, unit, front, host);
      RunKeeps(now, unit, front, host);
      OrphanIff(Run(Mounted(now, unit), front, host), steps[|steps| - 1], host);
    }
  }

  /**
   After every run in which the picture slide on screen never breaks, a slide timer can fire only at the moment the page
   on screen is to leave: every page is given its whole stay.
   */
  lemma WholeStay(now: int, unit: int, steps: seq<Step>, host: Host, at: int, handle: nat)
    requires GoodHost(host) && PossibleRun(Mounted(now, unit), steps, host)
             && BreaksIn(Mounted(now, unit), steps, host) == 0
    requires Possible(Run(Mounted(now, unit), steps, host), SlideTimerStep(at, handle))
    ensures var r := Run(Mounted(now, unit), steps, host);
            && r.current.Some? && SlideAt(r).Some? && r.slideTimer == Some(handle)
            && at == LeavesAt(SlideAt(r).value, r.current.value.endsAt)
  {
    hide Run, PossibleRun, Mounted, BreaksIn, Ledger, UntilOf, UrlOf;
    RunKeeps(now, unit, steps, host);
    ForgottenOverRun(now, unit, steps, host);
    var r := Run(Mounted(now, unit), steps, host);
    assert handle !in Forgotten(r);
  }

  /**
   Whenever a forgotten timer is due first, it takes the page on screen away before its end; what comes on then is given
   its whole seconds, and the renderer's own timer is the one forgotten now.
   */
  lemma ForgottenCutsShort(s: Screen, handle: nat, host: Host)
    requires GoodHost(host) && Inv(s) && s.current.Some? && handle in Forgotten(s)
    requires Possible(s, SlideTimerStep(s.timers[handle], handle)) && s.timers[handle] < s.timers[s.slideTimer.value]
    ensures var r := Do(s, SlideTimerStep(s.timers[handle], handle), host);
            && s.timers[handle] < s.current.value.endsAt && CameOn(r, s.timers[handle])
            && s.slideTimer.value in Forgotten(r)
  {
    hide Advance, Ledger, UrlOf, UntilOf, CameOn;
    var step := SlideTimerStep(s.timers[handle], handle);
    ForgottenAre(s, step, host);
    NewStay(s.(now := step.at, timers := s.timers - {handle}), host);
  }

  /**
   However many timers are armed, one that fires with something to show leaves as many: two never become one again.
   */
  lemma FiringKeepsCount(s: Screen, handle: nat, host: Host)
    requires Inv(s) && s.content.Some? && handle in s.timers && TimerFires(s, handle, host).current.Some?
    ensures |TimerFires(s, handle, host).timers| == |s.timers|
  {
    hide Advance, Ledger, OnScreen;
    var t := s.(timers := s.timers - {handle});
    AdvanceTimers(t, host);
    var r := TimerFires(s, handle, host);
    assert t.timers.Keys == s.timers.Keys - {handle};
    assert |r.timers| == |r.timers.Keys| && |s.timers| == |s.timers.Keys|;
  }

  /** When a new page comes on, its stay is its slide's seconds from now. */
  lemma NewStay(s: Screen, host: Host)
    requires s.content.Some?
    ensures CameOn(Advance(s, host), s.now)
  {
    hide LookOf, FitAfter, LeavesAt, FindFrom, UrlOf, UntilOf;
  }

  /** A page is on screen, and `due` comes before its timer and before the minute's. */
  predicate DueFirst(s: Screen, due: int) {
    && s.current.Some? && s.slideTimer.Some? && s.slideTimer.value in s.timers && due < s.timers[s.slideTimer.value]
    && (s.minuteTimer.Some? ==> due <= s.minuteTimer.value)
  }

  /** The page that has come on is given its own seconds from `at`. */
  predicate CameOn(s: Screen, at: int) {
    s.current.Some? ==> SlideAt(s).Some? && s.current.value.endsAt == at + SlideAt(s).value.seconds * SECOND
  }

  /**
   What the timer left behind does: it takes the next page away at the moment the broken picture was to leave, though
   that page's stay is not over.
   */
  lemma OrphanCutsShort(s: Screen, at: int, ref: C.PictureRef, host: Host)
    requires GoodHost(host) && Inv(s) && NoOrphan(s) && Possible(s, ImageErrorStep(at, ref)) && BreaksCurrent(s, ref)
    requires s.current.Some?
    ensures var broken := Do(s, ImageErrorStep(at, ref), host);
            var due := s.timers[s.slideTimer.value];
            DueFirst(broken, due) ==>
              var step := SlideTimerStep(due, s.slideTimer.value);
              Possible(broken, step) && due < broken.current.value.endsAt && CameOn(Do(broken, step, host), due)
  {
    hide PictureFailed, Advance, KeyOf, UrlOf, UntilOf, Ledger, Show, Settle, Tick, Resize, Message, Destroy, Possible,
         CameOn;
    var step := ImageErrorStep(at, ref);
    InvNow(s, step);
    var t := s.(now := at);
    PictureFailedKeeps(t, ref, host);
    BrokenTimers(t, ref, host);
    var broken := Do(s, step, host);
    var due := s.timers[s.slideTimer.value];
    if DueFirst(broken, due) {
      OrphanIsDue(broken, s.slideTimer.value, due);
      NewStay(broken.(now := due, timers := broken.timers - {s.slideTimer.value}), host);
    }
  }

  lemma OrphanIsDue(s: Screen, handle: nat, due: int)
    requires OnScreen(s) && TimersOk(s) && s.current.Some? && handle in s.timers && s.timers[handle] == due
    requires s.timers.Keys == {handle, s.slideTimer.value} && DueFirst(s, due)
    ensures Possible(s, SlideTimerStep(due, handle)) && due < s.current.value.endsAt
  {
    hide UrlOf, UntilOf, KeyOf;
  }

  lemma BrokenTimers(s: Screen, ref: C.PictureRef, host: Host)
    requires Inv(s) && NoOrphan(s) && BreaksCurrent(s, ref) && s.current.Some?
    ensures var r := PictureFailed(s, ref, host);
            && s.slideTimer.value in r.timers && r.timers[s.slideTimer.value] == s.timers[s.slideTimer.value]
            && r.timers.Keys == {s.slideTimer.value} + (if r.slideTimer.Some? then {r.slideTimer.value} else {})
            && r.now == s.now && r.content == s.content
  {
    hide KeyOf, UntilOf, Advance, Ledger;
    var key := KeyOf(ref);
    var t := Release(s, s.pictures[key]);
    var r := t.(pictures := t.pictures[key := s.pictures[key].(state := Failed, url := None)]);
    assert LosesPicture(r, key);
    AdvanceTimers(r, host);
    AdvanceKeepsTimers(r, host);
  }

  lemma AdvanceKeepsTimers(s: Screen, host: Host)
    requires s.content.Some? && forall h :: h in s.timers ==> h < s.armed
    ensures forall h :: h in s.timers ==> h in Advance(s, host).timers && Advance(s, host).timers[h] == s.timers[h]
    ensures Advance(s, host).content == s.content && Advance(s, host).now == s.now
  {
    hide LookOf, FitAfter, LeavesAt, FindFrom, UrlOf, UntilOf;
  }

  // ---------- A run in which it happens ----------

  /** Three pictures, each a slide, and their keys all different. */
  predicate ThreePictures(rotation: seq<C.Slide>, refs: seq<C.PictureRef>) {
    && |rotation| == |refs| == 3
    && (forall i :: 0 <= i < 3 ==> rotation[i].body == C.Picture(refs[i], None) && rotation[i].until.None?)
    && KeyOf(refs[0]) != KeyOf(refs[1]) && KeyOf(refs[0]) != KeyOf(refs[2]) && KeyOf(refs[1]) != KeyOf(refs[2])
  }

  /** A page around the renderer that takes every request for a picture and fits every slide on one page. */
  ghost predicate PlainHost(host: Host) {
    && host.hasPicture && (forall n :: !host.throws(n))
    && forall look, unit, page :: host.fit(look, unit, page) == Fit.SlideFit(0, 1, true)
  }

  /** The entry of the picture a request was made for, with a URL when it has one. */
  function EntryFor(refs: seq<C.PictureRef>, i: nat, state: EntryState, url: Option<Text>): Entry
    requires i < |refs|
  {
    Entry(i, refs[i], state, url, 0)
  }

  /** What the renderer holds at time 0 of the document's pictures: those from `waiting` on have not come. */
  ghost predicate HoldsPictures(s: Screen, refs: seq<C.PictureRef>, waiting: nat, url: Text) {
    && |refs| == 3 && waiting <= 3
    && (forall i :: 0 <= i < 3 ==>
          && KeyOf(refs[i]) in s.pictures
          && s.pictures[KeyOf(refs[i])]
             == EntryFor(refs, i, if i < waiting then Ready else Pending, if i < waiting then Some(url) else None))
    && (forall i :: waiting <= i < 3 ==> i in s.pending && s.pending[i].key == KeyOf(refs[i]))
  }

  ghost predicate AtZero(s: Screen, doc: C.ScreenContent) {
    s.now == 0 && s.content == Some(doc) && !s.destroyed && s.minuteTimer == Some(MINUTE)
  }

  /** A page of the slide at `index` on screen, its only one, with its timer. */
  ghost predicate OnlyPage(s: Screen, doc: C.ScreenContent, index: nat, handle: nat, endsAt: int) {
    && index < |doc.rotation| && s.content == Some(doc) && s.current.Some? && s.current.value.index == index
    && s.current.value.id == doc.rotation[index].id && s.current.value.page == 0 && s.current.value.pages == 1
    && s.current.value.endsAt == endsAt && s.slideTimer == Some(handle) && s.armed == handle + 1
  }

  lemma ThreeAskedFor(doc: C.ScreenContent, refs: seq<C.PictureRef>, url: Text, host: Host)
    requires ThreePictures(doc.rotation, refs) && PlainHost(host)
    ensures var r := Do(Mounted(0, 1), ShowStep(0, doc, 1), host);
            && AtZero(r, doc) && HoldsPictures(r, refs, 0, url) && r.current.None? && r.slideTimer.None?
            && r.timers == map[] && r.armed == 0
  {
    hide KeyOf, UntilOf, Draw, Taken;
    ThreeTaken(doc, refs, url, host);
    var t := Taken(Mounted(0, 1), doc, 1, host);
    NoneThere(t, doc.rotation, refs, url);
  }

  lemma NoneThere(s: Screen, rotation: seq<C.Slide>, refs: seq<C.PictureRef>, url: Text)
    requires ThreePictures(rotation, refs) && HoldsPictures(s, refs, 0, url)
    ensures FindFrom(s, rotation, 0, 0) == None
  {
    hide KeyOf, UntilOf;
    assert !Showable(s, rotation[0]) && !Showable(s, rotation[1]) && !Showable(s, rotation[2]);
    assert FindFrom(s, rotation, 0, 3) == None;
    assert FindFrom(s, rotation, 0, 2) == None;
    assert FindFrom(s, rotation, 0, 1) == None;
  }

  lemma ThreeWanted(rotation: seq<C.Slide>, refs: seq<C.PictureRef>)
    requires ThreePictures(rotation, refs)
    ensures WantedKeys(rotation) == [KeyOf(refs[0]), KeyOf(refs[1]), KeyOf(refs[2])]
    ensures WantedRefs(rotation) == map[KeyOf(refs[0]) := refs[0], KeyOf(refs[1]) := refs[1], KeyOf(refs[2]) := refs[2]]
  {
    hide KeyOf;
    var one, two := rotation[..1], rotation[..2];
    assert one[..0] == [] && two[..1] == one && rotation[..2] == two;
    assert WantedKeys(one) == [KeyOf(refs[0])] && WantedRefs(one) == map[KeyOf(refs[0]) := refs[0]];
    assert WantedKeys(two) == [KeyOf(refs[0]), KeyOf(refs[1])];
    assert WantedRefs(two) == map[KeyOf(refs[0]) := refs[0], KeyOf(refs[1]) := refs[1]];
  }

  lemma ThreeTaken(doc: C.ScreenContent, refs: seq<C.PictureRef>, url: Text, host: Host)
    requires ThreePictures(doc.rotation, refs) && PlainHost(host)
    ensures var t := Taken(Mounted(0, 1), doc, 1, host);
            && t.now == 0 && t.content == Some(doc) && !t.destroyed && HoldsPictures(t, refs, 0, url)
            && t.current.None? && t.slideTimer.None? && t.timers == map[] && t.armed == 0
  {
    hide KeyOf, HeldIds, WantedKeys, WantedRefs, AskWanted;
    ThreeWanted(doc.rotation, refs);
    var s := LetGo(Mounted(0, 1).(content := Some(doc)), WantedRefs(doc.rotation));
    assert s.pictures == map[];
    ThreeAsked(s, refs, url, host);
  }

  lemma ThreeAsked(s: Screen, refs: seq<C.PictureRef>, url: Text, host: Host)
    requires |refs| == 3 && PlainHost(host) && s.now == 0 && s.asked == 0 && s.pictures == map[]
    requires KeyOf(refs[0]) != KeyOf(refs[1]) && KeyOf(refs[0]) != KeyOf(refs[2]) && KeyOf(refs[1]) != KeyOf(refs[2])
    ensures var keys := [KeyOf(refs[0]), KeyOf(refs[1]), KeyOf(refs[2])];
            var wanted := map[KeyOf(refs[0]) := refs[0], KeyOf(refs[1]) := refs[1], KeyOf(refs[2]) := refs[2]];
            var t := AskWanted(s, keys, wanted, host);
            HoldsPictures(t, refs, 0, url) && t.(pictures := s.pictures, pending := s.pending, asked := s.asked) == s
  {
    hide KeyOf, Ask, HoldsPictures;
    var keys := [KeyOf(refs[0]), KeyOf(refs[1]), KeyOf(refs[2])];
    var wanted := map[KeyOf(refs[0]) := refs[0], KeyOf(refs[1]) := refs[1], KeyOf(refs[2]) := refs[2]];
    var one := Ask(s, keys[0], refs[0], host);
    var two := Ask(one, keys[1], refs[1], host);
    ThreeEntries(s, refs, url, host);
    AskLast(s, s, keys[..1], wanted, host);
    AskLast(s, one, keys[..2], wanted, host);
    AskLast(s, two, keys, wanted, host);
  }

  lemma ThreeEntries(s: Screen, refs: seq<C.PictureRef>, url: Text, host: Host)
    requires |refs| == 3 && PlainHost(host) && s.now == 0 && s.asked == 0 && s.pictures == map[]
    requires KeyOf(refs[0]) != KeyOf(refs[1]) && KeyOf(refs[0]) != KeyOf(refs[2]) && KeyOf(refs[1]) != KeyOf(refs[2])
    ensures var one := Ask(s, KeyOf(refs[0]), refs[0], host);
            var two := Ask(one, KeyOf(refs[1]), refs[1], host);
            var t := Ask(two, KeyOf(refs[2]), refs[2], host);
            && HoldsPictures(t, refs, 0, url) && t.(pictures := s.pictures, pending := s.pending, asked := s.asked) == s
            && KeyOf(refs[1]) !in one.pictures && KeyOf(refs[2]) !in two.pictures
  {
    hide KeyOf;
  }

  lemma AskLast(s: Screen, t: Screen, keys: seq<Text>, refs: map<Text, C.PictureRef>, host: Host)
    requires keys != [] && keys[|keys| - 1] in refs && keys[|keys| - 1] !in t.pictures
    requires t == AskWanted(s, keys[..|keys| - 1], refs, host)
    ensures AskWanted(s, keys, refs, host) == Ask(t, keys[|keys| - 1], refs[keys[|keys| - 1]], host)
  {
    hide Ask;
  }

  /** The first picture comes, and its slide goes on screen. */
  lemma FirstComes(s: Screen, doc: C.ScreenContent, refs: seq<C.PictureRef>, url: Text, host: Host)
    requires ThreePictures(doc.rotation, refs) && PlainHost(host) && doc.rotation[0].seconds >= 0
    requires AtZero(s, doc) && HoldsPictures(s, refs, 0, url) && s.current.None? && s.slideTimer.None?
             && s.timers == map[] && s.armed == 0
    ensures var r := Do(s, SettleStep(0, 0, Some(url)), host);
            var end := doc.rotation[0].seconds * SECOND;
            AtZero(r, doc) && HoldsPictures(r, refs, 1, url) && OnlyPage(r, doc, 0, 0, end) && r.timers == map[0 := end]
  {
    hide KeyOf, LookOf;
    var key := KeyOf(refs[0]);
    var t := s.(pending := s.pending - {0}, handed := s.handed + {0},
                pictures := s.pictures[key := EntryFor(refs, 0, Ready, Some(url))]);
    assert s.(now := 0) == s;
    assert Settle(s, 0, Some(url), host) == PictureChanged(t, key, host);
    assert Showable(t, doc.rotation[0]);
    assert FindFrom(t, doc.rotation, 0, 0) == Some(0);
  }

  /** Another comes, and nothing on screen changes. */
  lemma AnotherComes(s: Screen, doc: C.ScreenContent, refs: seq<C.PictureRef>, i: nat, url: Text, host: Host)
    requires ThreePictures(doc.rotation, refs) && 0 < i < 3 && AtZero(s, doc) && HoldsPictures(s, refs, i, url)
    requires s.current.Some? && s.current.value.index == 0
    ensures var r := Do(s, SettleStep(0, i, Some(url)), host);
            && AtZero(r, doc) && HoldsPictures(r, refs, i + 1, url)
            && r.current == s.current && r.slideTimer == s.slideTimer && r.timers == s.timers && r.armed == s.armed
  {
    hide KeyOf, LookOf, Draw, DrawOrLeave, Advance;
    var key := KeyOf(refs[i]);
    var t := s.(pending := s.pending - {i}, handed := s.handed + {i},
                pictures := s.pictures[key := EntryFor(refs, i, Ready, Some(url))]);
    assert s.(now := 0) == s;
    assert KeyOf(refs[0]) != key;
    assert Settle(s, i, Some(url), host) == PictureChanged(t, key, host);
  }

  /** The first breaks: the second goes on, and the first's timer stays armed. */
  lemma FirstBreaks(s: Screen, doc: C.ScreenContent, refs: seq<C.PictureRef>, url: Text, host: Host)
    requires ThreePictures(doc.rotation, refs) && PlainHost(host) && doc.rotation[1].seconds >= 0
    requires AtZero(s, doc) && HoldsPictures(s, refs, 3, url)
             && OnlyPage(s, doc, 0, 0, doc.rotation[0].seconds * SECOND)
    requires s.timers == map[0 := doc.rotation[0].seconds * SECOND]
    ensures var r := Do(s, ImageErrorStep(0, refs[0]), host);
            && AtZero(r, doc) && UrlOf(r.pictures, refs[2]) == Some(url)
            && OnlyPage(r, doc, 1, 1, doc.rotation[1].seconds * SECOND)
            && r.timers == map[0 := doc.rotation[0].seconds * SECOND, 1 := doc.rotation[1].seconds * SECOND]
  {
    hide KeyOf, LookOf;
    var key := KeyOf(refs[0]);
    assert s.(now := 0) == s;
    var failed := s.pictures[key].(state := Failed, url := None);
    var t := Release(s, s.pictures[key]).(pictures := s.pictures[key := failed]);
    assert PictureFailed(s, refs[0], host) == PictureChanged(t, key, host) == Advance(t, host);
    assert Showable(t, doc.rotation[1]);
    assert FindFrom(t, doc.rotation, 1, 0) == Some(1);
  }

  /** The first's timer fires: the third goes on, though the second is to stay. */
  lemma ForgottenFires(s: Screen, doc: C.ScreenContent, refs: seq<C.PictureRef>, url: Text, due: int, host: Host)
    requires ThreePictures(doc.rotation, refs) && PlainHost(host) && doc.rotation[2].seconds >= 0
    requires s.content == Some(doc) && UrlOf(s.pictures, refs[2]) == Some(url)
             && OnlyPage(s, doc, 1, 1, doc.rotation[1].seconds * SECOND)
    requires due >= 0
    ensures var r := Do(s, SlideTimerStep(due, 0), host);
            r.now == due && OnlyPage(r, doc, 2, 2, due + doc.rotation[2].seconds * SECOND)
  {
    hide KeyOf, LookOf;
    var t := s.(now := due, timers := s.timers - {0});
    assert Showable(t, doc.rotation[2]);
    assert FindFrom(t, doc.rotation, 2, 0) == Some(2);
  }

  const UTC_NAME: Text := [85, 84, 67]

  function PictureNamed(name: CodeUnit): C.PictureRef {
    C.PictureRef([name], [], 0, [], [])
  }

  function PictureSlide(name: CodeUnit, seconds: int): C.Slide {
    C.Slide([name], seconds, None, C.PictureSource, None, C.Picture(PictureNamed(name), None))
  }

  /** A document of three pictures, shown for 5, 120 and 120 seconds. */
  const THREE_PICTURES := C.ScreenContent(
    [115], ToInstant(0), C.REFRESH_SECONDS_MIN, C.Sv, UTC_NAME, C.Stable, C.Layout(0, C.NoHeader, C.Light), [],
    [PictureSlide(97, 5), PictureSlide(98, 120), PictureSlide(99, 120)])

  const PLAIN_HOST := Host(
    true,
    (n: nat) => false,
    (look: Look, unit: int, page: nat) => Fit.SlideFit(0, 1, true),
    (time: int, zone: Text) => 0)

  /** The document is shown, its pictures come, and the first breaks, all at once. */
  const FIRST_BREAKS: seq<Step> := [
    ShowStep(0, THREE_PICTURES, 1),
    SettleStep(0, 0, Some([117])), SettleStep(0, 1, Some([117])), SettleStep(0, 2, Some([117])),
    ImageErrorStep(0, PictureNamed(97))]

  /**
   It happens, to a document within every limit: the second picture comes on for 120 seconds, and after 5 the timer of
   the first, forgotten, takes it away for the third.
   */
  lemma OrphanHappens()
    ensures C.ValidDocument(THREE_PICTURES, {UTC_NAME}) && GoodHost(PLAIN_HOST)
    ensures var mounted := Mounted(0, 1);
            var early := SlideTimerStep(5 * SECOND, 0);
            PossibleRun(mounted, FIRST_BREAKS, PLAIN_HOST) && Possible(Run(mounted, FIRST_BREAKS, PLAIN_HOST), early)
    ensures var broken := Run(Mounted(0, 1), FIRST_BREAKS, PLAIN_HOST);
            && Forgotten(broken) == {0} && DueFirst(broken, 5 * SECOND)
            && broken.current.Some? && broken.current.value.index == 1 && broken.current.value.endsAt == 120 * SECOND
    ensures var r := Do(Run(Mounted(0, 1), FIRST_BREAKS, PLAIN_HOST), SlideTimerStep(5 * SECOND, 0), PLAIN_HOST);
            r.now == 5 * SECOND && r.current.Some? && r.current.value.index == 2
  {
    hide Do, Run, PossibleRun, Mounted, Possible, ThreePictures, PlainHost, GoodHost, C.ValidDocument, ToInstant;
    ThreeIsValid();
    PlainIs();
    BreakingRun(THREE_PICTURES, [PictureNamed(97), PictureNamed(98), PictureNamed(99)], [117], PLAIN_HOST,
                FIRST_BREAKS);
  }

  lemma BreakingRun(doc: C.ScreenContent, refs: seq<C.PictureRef>, url: Text, host: Host, steps: seq<Step>)
    requires ThreePictures(doc.rotation, refs) && PlainHost(host) && Timed(doc)
    requires doc.rotation[0].seconds == 5 && doc.rotation[1].seconds == 120 && doc.rotation[2].seconds == 120
    requires steps
             == [ShowStep(0, doc, 1), SettleStep(0, 0, Some(url)), SettleStep(0, 1, Some(url)),
                 SettleStep(0, 2, Some(url)), ImageErrorStep(0, refs[0])]
    ensures var broken := Run(Mounted(0, 1), steps, host);
            var r := Do(broken, SlideTimerStep(5 * SECOND, 0), host);
            && PossibleRun(Mounted(0, 1), steps, host) && Possible(broken, SlideTimerStep(5 * SECOND, 0))
            && Forgotten(broken) == {0} && DueFirst(broken, 5 * SECOND)
            && broken.current.Some? && broken.current.value.index == 1 && broken.current.value.endsAt == 120 * SECOND
            && r.now == 5 * SECOND && r.current.Some? && r.current.value.index == 2
  {
    hide Do, Run, PossibleRun, Mounted, Possible, PlainHost, HoldsPictures, Forgotten, DueFirst;
    var shown := Do(Mounted(0, 1), steps[0], host);
    ThreeAskedFor(doc, refs, url, host);
    var one := Do(shown, steps[1], host);
    FirstComes(shown, doc, refs, url, host);
    var two := Do(one, steps[2], host);
    AnotherComes(one, doc, refs, 1, url, host);
    var three := Do(two, steps[3], host);
    AnotherComes(two, doc, refs, 2, url, host);
    var broken := Do(three, steps[4], host);
    FirstBreaks(three, doc, refs, url, host);
    ForgottenFires(broken, doc, refs, url, 5 * SECOND, host);
    FirstIsDue(broken);
    FromMounted(doc);
    StillAsked(shown, refs, 0, url);
    StillAsked(one, refs, 1, url);
    StillAsked(two, refs, 2, url);
    PossibleAtZero(shown, doc, steps[1]);
    PossibleAtZero(one, doc, steps[2]);
    PossibleAtZero(two, doc, steps[3]);
    PossibleAtZero(three, doc, steps[4]);
    FiveSteps(Mounted(0, 1), steps, host);
  }

  lemma ThreeIsValid()
    ensures C.ValidDocument(THREE_PICTURES, {UTC_NAME}) && Timed(THREE_PICTURES)
    ensures ThreePictures(THREE_PICTURES.rotation, [PictureNamed(97), PictureNamed(98), PictureNamed(99)])
  {
    hide ToInstant, IsInstant, PictureSlide, PictureNamed, C.ValidSlide, KeyOf;
    InstantAtZero();
    PictureSlideIs(97, 5);
    PictureSlideIs(98, 120);
    PictureSlideIs(99, 120);
  }

  lemma PictureSlideIs(name: CodeUnit, seconds: int)
    requires 97 <= name <= 122 && C.SLIDE_SECONDS_MIN <= seconds <= C.SLIDE_SECONDS_MAX
    ensures var slide := PictureSlide(name, seconds);
            && C.ValidSlide(slide) && slide.body == C.Picture(PictureNamed(name), None) && slide.until.None?
            && slide.seconds == seconds && slide.id == [name]
    ensures KeyOf(PictureNamed(name)) == [name, NUL]
  {
    assert Characters([]) == 0;
  }

  lemma InstantAtZero()
    ensures IsInstant(ToInstant(0))
  {
    hide ToInstant;
    ToInstantRead(0);
  }

  lemma PlainIs()
    ensures PlainHost(PLAIN_HOST) && GoodHost(PLAIN_HOST)
  {
  }

  lemma FromMounted(doc: C.ScreenContent)
    requires Timed(doc)
    ensures Possible(Mounted(0, 1), ShowStep(0, doc, 1))
  {
  }

  lemma StillAsked(s: Screen, refs: seq<C.PictureRef>, i: nat, url: Text)
    requires i < 3 && HoldsPictures(s, refs, i, url)
    ensures i in s.pending
  {
  }

  lemma PossibleAtZero(s: Screen, doc: C.ScreenContent, step: Step)
    requires AtZero(s, doc) && step.at == 0 && (forall h :: h in s.timers ==> s.timers[h] >= 0)
    requires step.ImageErrorStep? || (step.SettleStep? && step.id in s.pending)
    ensures Possible(s, step)
  {
  }

  lemma FirstIsDue(s: Screen)
    requires s.now == 0 && s.minuteTimer == Some(MINUTE) && s.timers == map[0 := 5 * SECOND, 1 := 120 * SECOND]
    requires s.current.Some? && s.slideTimer == Some(1)
    ensures Possible(s, SlideTimerStep(5 * SECOND, 0)) && DueFirst(s, 5 * SECOND) && Forgotten(s) == {0}
  {
  }

  lemma FiveSteps(s: Screen, steps: seq<Step>, host: Host)
    requires |steps| == 5
    requires Possible(s, steps[0]) && Possible(Do(s, steps[0], host), steps[1])
             && Possible(Do(Do(s, steps[0], host), steps[1], host), steps[2])
    requires Possible(Do(Do(Do(s, steps[0], host), steps[1], host), steps[2], host), steps[3])
    requires Possible(Do(Do(Do(Do(s, steps[0], host), steps[1], host), steps[2], host), steps[3], host), steps[4])
    ensures PossibleRun(s, steps, host)
    ensures Run(s, steps, host)
            == Do(Do(Do(Do(Do(s, steps[0], host), steps[1], host), steps[2], host), steps[3], host), steps[4], host)
  {
    hide Do, Possible;
    OneStep(s, steps, 0, host);
    OneStep(s, steps, 1, host);
    OneStep(s, steps, 2, host);
    OneStep(s, steps, 3, host);
    OneStep(s, steps, 4, host);
    assert steps[..5] == steps && steps[..0] == [];
  }

  lemma OneStep(s: Screen, steps: seq<Step>, k: nat, host: Host)
    requires k < |steps|
    ensures Run(s, steps[..k + 1], host) == Do(Run(s, steps[..k], host), steps[k], host)
    ensures PossibleRun(s, steps[..k + 1], host)
            <==> PossibleRun(s, steps[..k], host) && Possible(Run(s, steps[..k], host), steps[k])
  {
    hide Do, Possible;
    assert steps[..k + 1][..k] == steps[..k];
  }

  // ---------- The rotation is fair ----------

  /** Which slides can be shown, and how many pages each has. */
  datatype Cycle = Cycle(show: seq<bool>, pages: seq<nat>)

  datatype Place = Place(index: nat, page: nat)

  ghost predicate GoodCycle(c: Cycle) {
    && |c.show| == |c.pages| && (forall i :: 0 <= i < |c.show| && c.show[i] ==> c.pages[i] >= 1)
    && exists i :: 0 <= i < |c.show| && c.show[i]
  }

  predicate OnCycle(c: Cycle, p: Place) {
    p.index < |c.show| == |c.pages| && c.show[p.index] && p.page < c.pages[p.index]
  }

  function FirstShown(show: seq<bool>, from: nat, step: nat): (r: Option<nat>)
    requires step <= |show|
    ensures r.Some? ==> r.value < |show| && show[r.value]
    decreases |show| - step
  {
    if step == |show| then None
    else
      var index := (from + step) % |show|;
      if show[index] then Some(index) else FirstShown(show, from, step + 1)
  }

  /** The next page, or the first of the next slide that can be shown. */
  function NextPlace(c: Cycle, p: Place): Place
    requires OnCycle(c, p)
  {
    if p.page + 1 < c.pages[p.index] then Place(p.index, p.page + 1)
    else
      var next := FirstShown(c.show, p.index + 1, 0);
      if next.Some? then Place(next.value, 0) else p
  }

  /** The pages of the first slides that can be shown. */
  function Weight(c: Cycle, i: nat): nat
    requires i <= |c.show| == |c.pages|
  {
    if i == 0 then 0 else Weight(c, i - 1) + (if c.show[i - 1] then c.pages[i - 1] else 0)
  }

  function Total(c: Cycle): nat
    requires |c.show| == |c.pages|
  {
    Weight(c, |c.show|)
  }

  /** Where a place is among all the pages of the cycle. */
  function Rank(c: Cycle, p: Place): nat
    requires OnCycle(c, p)
  {
    Weight(c, p.index) + p.page
  }

  lemma {:induction false} WeightGrows(c: Cycle, i: nat, j: nat)
    requires i <= j <= |c.show| == |c.pages|
    ensures Weight(c, i) <= Weight(c, j)
    decreases j - i
  {
    if i < j {
      WeightGrows(c, i, j - 1);
    }
  }

  lemma RankBelow(c: Cycle, p: Place)
    requires OnCycle(c, p)
    ensures Rank(c, p) < Weight(c, p.index + 1) <= Total(c)
  {
    WeightGrows(c, p.index + 1, |c.show|);
  }

  /** Two places of the same rank are one. */
  lemma RankInjective(c: Cycle, p: Place, q: Place)
    requires OnCycle(c, p) && OnCycle(c, q) && Rank(c, p) == Rank(c, q)
    ensures p == q
  {
    RankBelow(c, p);
    RankBelow(c, q);
    if p.index < q.index {
      WeightGrows(c, p.index + 1, q.index);
    } else if q.index < p.index {
      WeightGrows(c, q.index + 1, p.index);
    }
  }

  /** Looking on from a slide, `step` slides later. */
  function Around(index: nat, n: nat): nat {
    if index < n then index else index - n
  }

  lemma AroundIsRemainder(index: nat, n: nat)
    requires index < 2 * n
    ensures n > 0 && index % n == Around(index, n) < n
  {
  }

  /** The pages passed from the first slide, going on into a second round. */
  function Passed(c: Cycle, x: nat): nat
    requires |c.show| == |c.pages| && x <= 2 * |c.show|
  {
    if x <= |c.show| then Weight(c, x) else Total(c) + Weight(c, x - |c.show|)
  }

  lemma PassedOver(c: Cycle, x: nat)
    requires |c.show| == |c.pages| && x < 2 * |c.show| && !c.show[Around(x, |c.show|)]
    ensures Passed(c, x + 1) == Passed(c, x)
  {
    var n := |c.show|;
    if x < n {
      assert Weight(c, x + 1) == Weight(c, x);
    } else {
      assert Weight(c, x - n + 1) == Weight(c, x - n);
      assert Weight(c, 0) == 0;
    }
  }

  /** Every page passed over on the way to the next slide that can be shown is of one that cannot. */
  lemma {:induction false} FirstShownRank(c: Cycle, from: nat, step: nat)
    requires GoodCycle(c) && from <= |c.show| && step <= |c.show| && Passed(c, from + step) == Weight(c, from)
    ensures var r := FirstShown(c.show, from, step);
            r.Some?
            ==> Weight(c, r.value) < Total(c)
                && (Weight(c, from) == Weight(c, r.value) || Weight(c, from) == Weight(c, r.value) + Total(c))
    decreases |c.show| - step
  {
    hide Weight;
    var n := |c.show|;
    if step < n {
      AroundIsRemainder(from + step, n);
      var index := Around(from + step, n);
      if c.show[index] {
        RankBelow(c, Place(index, 0));
        ShownWeight(c, index);
      } else {
        PassedOver(c, from + step);
        FirstShownRank(c, from, step + 1);
      }
    }
  }

  lemma ShownWeight(c: Cycle, index: nat)
    requires GoodCycle(c) && index < |c.show| && c.show[index]
    ensures Weight(c, 0) == 0 && Weight(c, index) < Weight(c, index + 1) <= Total(c)
  {
    WeightGrows(c, index + 1, |c.show|);
  }

  /** Each step of the rotation goes one page on, and from the last back to the first. */
  lemma NextRank(c: Cycle, p: Place)
    requires GoodCycle(c) && OnCycle(c, p)
    ensures OnCycle(c, NextPlace(c, p))
            && Rank(c, NextPlace(c, p)) == if Rank(c, p) + 1 < Total(c) then Rank(c, p) + 1 else 0
  {
    RankBelow(c, p);
    if p.page + 1 >= c.pages[p.index] {
      FoundAgain(c, p);
      FirstShownRank(c, p.index + 1, 0);
    }
  }

  lemma {:induction false} SomeShown(show: seq<bool>, from: nat, step: nat, target: nat)
    requires from <= |show| && step <= target < |show| && show[(from + target) % |show|]
    ensures FirstShown(show, from, step).Some?
    decreases target - step
  {
    if step < target && !show[(from + step) % |show|] {
      SomeShown(show, from, step + 1, target);
    }
  }

  lemma FoundAgain(c: Cycle, p: Place)
    requires GoodCycle(c) && OnCycle(c, p)
    ensures FirstShown(c.show, p.index + 1, 0).Some?
  {
    var n := |c.show|;
    AroundIsRemainder(p.index + n, n);
    SomeShown(c.show, p.index + 1, 0, n - 1);
  }

  function NextTimes(c: Cycle, p: Place, k: nat): (r: Place)
    requires GoodCycle(c) && OnCycle(c, p)
    ensures OnCycle(c, r)
  {
    if k == 0 then p
    else
      var before := NextTimes(c, p, k - 1);
      NextRank(c, before);
      NextPlace(c, before)
  }

  lemma {:induction false} RankAfter(c: Cycle, p: Place, k: nat)
    requires GoodCycle(c) && OnCycle(c, p) && k <= Total(c)
    ensures Rank(c, NextTimes(c, p, k))
            == if Rank(c, p) + k < Total(c) then Rank(c, p) + k else Rank(c, p) + k - Total(c)
  {
    hide NextPlace, GoodCycle, OnCycle;
    RankBelow(c, p);
    if k > 0 {
      RankAfter(c, p, k - 1);
      NextRank(c, NextTimes(c, p, k - 1));
    }
  }

  /** The rotation is back where it began after exactly as many steps as there are pages, and after no fewer. */
  lemma ReturnsAfterTotal(c: Cycle, p: Place, k: nat)
    requires GoodCycle(c) && OnCycle(c, p) && 0 < k <= Total(c)
    ensures NextTimes(c, p, k) == p <==> k == Total(c)
  {
    hide NextTimes, GoodCycle;
    RankAfter(c, p, k);
    RankBelow(c, p);
    if k == Total(c) {
      RankInjective(c, NextTimes(c, p, k), p);
    }
  }

  /** On the way it comes to every page of every slide that can be shown, and to each once. */
  lemma ComesToEveryPlace(c: Cycle, p: Place, q: Place)
    requires GoodCycle(c) && OnCycle(c, p) && OnCycle(c, q)
    ensures exists k :: 0 <= k < Total(c) && NextTimes(c, p, k) == q
    ensures forall j: nat, k: nat ::
              j < Total(c) && k < Total(c) && NextTimes(c, p, j) == q && NextTimes(c, p, k) == q ==> j == k
  {
    hide NextTimes, GoodCycle;
    RankBelow(c, p);
    RankBelow(c, q);
    var k: nat := if Rank(c, q) >= Rank(c, p) then Rank(c, q) - Rank(c, p) else Rank(c, q) + Total(c) - Rank(c, p);
    RankAfter(c, p, k);
    RankInjective(c, NextTimes(c, p, k), q);
    forall i: nat, j: nat | i < Total(c) && j < Total(c) && NextTimes(c, p, i) == q && NextTimes(c, p, j) == q
      ensures i == j
    {
      RankAfter(c, p, i);
      RankAfter(c, p, j);
    }
  }

  // ---------- The program goes round the cycle ----------

  function PlaceOf(s: Screen): Place
    requires s.current.Some?
  {
    Place(s.current.value.index, s.current.value.page)
  }

  /** The document, what can be shown of it and its page counts are the cycle's. */
  ghost predicate Steady(s: Screen, c: Cycle, host: Host) {
    && s.content.Some? && C.UniqueIds(s.content.value.rotation) && |s.content.value.rotation| == |c.show|
    && GoodCycle(c)
    && (forall i :: 0 <= i < |c.show| ==> Showable(s, s.content.value.rotation[i]) == c.show[i])
    && forall look: Look, page: nat, i ::
         0 <= i < |c.show| && look.slide == s.content.value.rotation[i] && page < c.pages[i] ==>
         host.fit(look, s.unit, page).page == page && host.fit(look, s.unit, page).pages == c.pages[i]
  }

  ghost predicate AtPlace(s: Screen, c: Cycle) {
    && s.current.Some? && SlideAt(s).Some? && SlideAt(s).value.id == s.current.value.id && OnCycle(c, PlaceOf(s))
    && s.current.value.pages == c.pages[s.current.value.index] && s.current.value.look.slide == SlideAt(s).value
  }

  lemma {:induction false} FindIsFirstShown(s: Screen, rotation: seq<C.Slide>, show: seq<bool>, from: nat, step: nat)
    requires |rotation| == |show| && step <= |show|
             && forall i :: 0 <= i < |show| ==> Showable(s, rotation[i]) == show[i]
    ensures FindFrom(s, rotation, from, step) == FirstShown(show, from, step)
    decreases |show| - step
  {
    if step < |show| {
      FindIsFirstShown(s, rotation, show, from, step + 1);
    }
  }

  lemma DrawPlace(s: Screen, c: Cycle, index: nat, page: nat, endsAt: int, host: Host)
    requires Steady(s, c, host) && OnCycle(c, Place(index, page))
             && Drawable(s.pictures, s.content.value.rotation[index])
    requires s.current.Some? ==> AtPlace(s, c)
    ensures var r := Draw(s, s.content.value.rotation[index], index, endsAt, page, host);
            AtPlace(r, c) && PlaceOf(r) == Place(index, page) && r.content == s.content
  {
    hide LeavesAt, UrlOf, UntilOf;
    var slide := s.content.value.rotation[index];
    var look := LookOf(s, slide, s.content.value, host);
    assert look.slide == slide;
  }

  /** `advance` goes to the next place. */
  lemma AdvancePlace(s: Screen, c: Cycle, host: Host)
    requires Steady(s, c, host) && AtPlace(s, c)
    ensures var r := Advance(s, host);
            AtPlace(r, c) && PlaceOf(r) == NextPlace(c, PlaceOf(s)) && r.content == s.content
  {
    hide Draw, UrlOf, UntilOf, ShowFrom, GoodCycle;
    var t := s.(slideTimer := None);
    SteadySame(s, t, c, host);
    assert AtPlace(t, c);
    var p := PlaceOf(s);
    var rotation := s.content.value.rotation;
    if p.page + 1 < c.pages[p.index] {
      DrawPlace(t, c, p.index, p.page + 1, t.now + rotation[p.index].seconds * SECOND, host);
    } else {
      NextSlidePlace(t, c, host);
    }
  }

  lemma NextSlidePlace(s: Screen, c: Cycle, host: Host)
    requires Steady(s, c, host) && AtPlace(s, c) && PlaceOf(s).page + 1 == c.pages[PlaceOf(s).index]
    ensures var r := ShowFrom(s, PlaceOf(s).index + 1, host);
            AtPlace(r, c) && PlaceOf(r) == NextPlace(c, PlaceOf(s)) && r.content == s.content
  {
    hide Draw, UrlOf, UntilOf;
    var p := PlaceOf(s);
    var rotation := s.content.value.rotation;
    NextRank(c, p);
    FindIsFirstShown(s, rotation, c.show, p.index + 1, 0);
    FoundAgain(c, p);
    var next := FirstShown(c.show, p.index + 1, 0).value;
    DrawPlace(s, c, next, 0, s.now + rotation[next].seconds * SECOND, host);
  }

  /** A rotation that starts is on the first page of the first slide that can be shown. */
  lemma BeginPlace(s: Screen, c: Cycle, host: Host)
    requires Steady(s, c, host) && s.current.None?
    ensures var r := ShowFrom(s, 0, host);
            AtPlace(r, c) && r.current.value.page == 0 && forall i :: 0 <= i < r.current.value.index ==> !c.show[i]
  {
    hide Draw, UrlOf, UntilOf, LookOf, FitAfter;
    FindIsFirstShown(s, s.content.value.rotation, c.show, 0, 0);
    var i :| 0 <= i < |c.show| && c.show[i];
    AroundIsRemainder(i, |c.show|);
    SomeShown(c.show, 0, 0, i);
    FirstShownFirst(c.show, 0);
    var index := FirstShown(c.show, 0, 0).value;
    DrawPlace(s, c, index, 0, s.now + s.content.value.rotation[index].seconds * SECOND, host);
  }

  lemma {:induction false} FirstShownFirst(show: seq<bool>, step: nat)
    requires step <= |show| && FirstShown(show, 0, step).Some?
    ensures step <= FirstShown(show, 0, step).value
            && forall i :: step <= i < FirstShown(show, 0, step).value ==> !show[i]
    decreases |show| - step
  {
    AroundIsRemainder(step, |show|);
    if !show[step] {
      FirstShownFirst(show, step + 1);
    }
  }

  /** The entries once the answer to a request is in. */
  function PicturesWith(s: Screen, id: nat, url: Option<Text>): map<Text, Entry> {
    if id in s.pending && s.pending[id].key in s.pictures && s.pictures[s.pending[id].key].id == id then
      var key := s.pending[id].key;
      s.pictures[key := s.pictures[key].(state := if url.None? then Failed else Ready, url := url)]
    else s.pictures
  }

  function PicturesWithout(s: Screen, ref: C.PictureRef): map<Text, Entry> {
    var key := KeyOf(ref);
    if key in s.pictures && s.pictures[key].state.Ready? then
      s.pictures[key := s.pictures[key].(state := Failed, url := None)]
    else s.pictures
  }

  /** The document, the pictures, the clock and the unit a step decides by. */
  function Decides(s: Screen, step: Step, host: Host): Screen {
    var t := s.(now := step.at);
    match step
    case ShowStep(_, next, unit) => Taken(t, next, unit, host)
    case SettleStep(_, id, url) => t.(pictures := PicturesWith(t, id, url))
    case ImageErrorStep(_, ref) => t.(pictures := PicturesWithout(t, ref))
    case ResizeStep(_, unit) => t.(unit := unit)
    case _ => t
  }

  /**
   The step is of the same document, and the document, what can be shown of it and its page counts are the cycle's.
   */
  ghost predicate Turns(s: Screen, step: Step, c: Cycle, host: Host) {
    && !step.MessageStep? && !step.DestroyStep? && (step.ShowStep? ==> Some(step.next) == s.content)
    && Steady(Decides(s, step, host), c, host)
  }

  /** They are so at every step of a run. */
  ghost predicate TurnsThrough(s: Screen, steps: seq<Step>, c: Cycle, host: Host) {
    steps == []
    || (TurnsThrough(s, steps[..|steps| - 1], c, host)
        && Turns(Run(s, steps[..|steps| - 1], host), steps[|steps| - 1], c, host))
  }

  /** How often the slide timer has fired. */
  function Fired(steps: seq<Step>): nat {
    if steps == [] then 0 else Fired(steps[..|steps| - 1]) + (if steps[|steps| - 1].SlideTimerStep? then 1 else 0)
  }

  lemma SteadySame(s: Screen, t: Screen, c: Cycle, host: Host)
    requires Steady(s, c, host) && t.content == s.content && t.pictures == s.pictures && t.now == s.now
             && t.unit == s.unit
    ensures Steady(t, c, host)
  {
    hide UrlOf, UntilOf, GoodCycle;
  }

  /** A page fitted again is the page it was. */
  lemma RefitPlace(s: Screen, c: Cycle, host: Host)
    requires Steady(s, c, host) && AtPlace(s, c)
    ensures AtPlace(Refit(s, host), c) && PlaceOf(Refit(s, host)) == PlaceOf(s)
  {
    hide Showable, GoodCycle;
  }

  /** A page drawn again where it is stays the page it is. */
  lemma RedrawPlace(s: Screen, c: Cycle, endsAt: int, host: Host)
    requires Steady(s, c, host) && AtPlace(s, c)
    ensures var r := DrawOrLeave(s, SlideAt(s).value, s.current.value.index, endsAt, s.current.value.page, host);
            AtPlace(r, c) && PlaceOf(r) == PlaceOf(s)
  {
    hide Draw, Advance, UrlOf, UntilOf, LookOf;
    var p := PlaceOf(s);
    assert Showable(s, SlideAt(s).value);
    DrawPlace(s, c, p.index, p.page, endsAt, host);
  }

  lemma PictureChangedPlace(s: Screen, key: Text, c: Cycle, host: Host)
    requires Steady(s, c, host) && AtPlace(s, c)
    ensures AtPlace(PictureChanged(s, key, host), c) && PlaceOf(PictureChanged(s, key, host)) == PlaceOf(s)
  {
    hide DrawOrLeave, Advance, UrlOf, UntilOf, LookOf, KeyOf;
    RedrawPlace(s, c, s.current.value.endsAt, host);
    assert Showable(s, SlideAt(s).value);
  }

  lemma SettlePlace(s: Screen, id: nat, url: Option<Text>, c: Cycle, host: Host)
    requires Steady(s.(pictures := PicturesWith(s, id, url)), c, host) && AtPlace(s, c) && id in s.pending
             && !s.destroyed
    ensures AtPlace(Settle(s, id, url, host), c) && PlaceOf(Settle(s, id, url, host)) == PlaceOf(s)
  {
    hide Steady, PictureChanged;
    var key := s.pending[id].key;
    if key in s.pictures && s.pictures[key].id == id {
      var r := s.(pending := s.pending - {id}, handed := if url.Some? then s.handed + {id} else s.handed,
                  pictures := PicturesWith(s, id, url));
      SteadySame(s.(pictures := PicturesWith(s, id, url)), r, c, host);
      PictureChangedPlace(r, key, c, host);
    }
  }

  lemma PictureFailedPlace(s: Screen, ref: C.PictureRef, c: Cycle, host: Host)
    requires Steady(s.(pictures := PicturesWithout(s, ref)), c, host) && AtPlace(s, c)
    ensures AtPlace(PictureFailed(s, ref, host), c) && PlaceOf(PictureFailed(s, ref, host)) == PlaceOf(s)
  {
    hide Steady, PictureChanged, KeyOf;
    var key := KeyOf(ref);
    if key in s.pictures && s.pictures[key].state.Ready? {
      var r := Release(s, s.pictures[key]).(pictures := PicturesWithout(s, ref));
      SteadySame(s.(pictures := PicturesWithout(s, ref)), r, c, host);
      PictureChangedPlace(r, key, c, host);
    }
  }

  lemma TickPlace(s: Screen, c: Cycle, host: Host)
    requires Steady(s, c, host) && AtPlace(s, c) && !s.destroyed
    ensures AtPlace(Tick(s, host), c) && PlaceOf(Tick(s, host)) == PlaceOf(s)
  {
    hide Steady, DrawOrLeave, LookOf;
    var t := s.(minuteTimer := None);
    SteadySame(s, t, c, host);
    RedrawPlace(t, c, t.current.value.endsAt, host);
  }

  lemma {:induction false} FoundAt(rotation: seq<C.Slide>, index: nat, from: nat)
    requires C.UniqueIds(rotation) && from <= index < |rotation|
    ensures IndexOfId(rotation, rotation[index].id, from) == Some(index)
    decreases index - from
  {
    if from < index {
      FoundAt(rotation, index, from + 1);
    }
  }

  /** The document fetched again keeps its page. */
  lemma ShowPlace(s: Screen, next: C.ScreenContent, unit: int, c: Cycle, host: Host)
    requires GoodHost(host) && TimersArmed(s) && s.content == Some(next) && !s.destroyed
    requires Steady(Taken(s, next, unit, host), c, host) && AtPlace(s, c)
    ensures AtPlace(Show(s, next, unit, host), c) && PlaceOf(Show(s, next, unit, host)) == PlaceOf(s)
  {
    hide Taken, Draw, UrlOf, UntilOf, LookOf;
    var t := Taken(s, next, unit, host);
    var p := PlaceOf(s);
    TakenShape(s, next, unit, host);
    TakenPlace(s, next, unit, c, host);
    FoundAt(next.rotation, p.index, 0);
    assert Showable(t, next.rotation[p.index]);
    assert KeptAt(t, next, s.current) == Some(p.index);
    DrawPlace(t, c, p.index, p.page, s.current.value.endsAt, host);
  }

  lemma TakenPlace(s: Screen, next: C.ScreenContent, unit: int, c: Cycle, host: Host)
    requires GoodHost(host) && TimersArmed(s) && s.content == Some(next)
    requires Steady(Taken(s, next, unit, host), c, host) && AtPlace(s, c)
    ensures AtPlace(Taken(s, next, unit, host), c) && PlaceOf(Taken(s, next, unit, host)) == PlaceOf(s)
  {
    hide Steady, SyncPictures;
    var u := s.(content := Some(next), unit := unit);
    TakenShape(s, next, unit, host);
    TakenCurrent(s, next, unit, host);
    FitsAs(Taken(s, next, unit, host), c, host);
  }

  /** With the cycle's page counts, a page of it fitted again is that page. */
  lemma FitsAs(s: Screen, c: Cycle, host: Host)
    requires Steady(s, c, host)
    ensures s.content.Some? && |s.content.value.rotation| == |c.show| == |c.pages|
    ensures forall look: Look, page: nat, i ::
              0 <= i < |c.show| && look.slide == s.content.value.rotation[i] && page < c.pages[i] ==>
              host.fit(look, s.unit, page).page == page && host.fit(look, s.unit, page).pages == c.pages[i]
  {
  }

  lemma TakenCurrent(s: Screen, next: C.ScreenContent, unit: int, host: Host)
    ensures Taken(s, next, unit, host).current == Refit(s.(content := Some(next), unit := unit), host).current
  {
    var u := Refit(s.(content := Some(next), unit := unit), host);
    AskWantedCurrent(LetGo(u, WantedRefs(next.rotation)), WantedKeys(next.rotation), WantedRefs(next.rotation), host);
  }

  lemma {:induction false} AskWantedCurrent(s: Screen, keys: seq<Text>, refs: map<Text, C.PictureRef>, host: Host)
    ensures AskWanted(s, keys, refs, host).current == s.current
  {
    if keys != [] {
      AskWantedCurrent(s, keys[..|keys| - 1], refs, host);
    }
  }

  /** A slide timer that fires brings the next place of the cycle, and nothing else moves the page. */
  lemma TurnPlace(s: Screen, step: Step, c: Cycle, host: Host)
    requires GoodHost(host) && Inv(s) && Possible(s, step) && AtPlace(s, c) && Turns(s, step, c, host)
    ensures AtPlace(Do(s, step, host), c)
    ensures PlaceOf(Do(s, step, host)) == if step.SlideTimerStep? then NextPlace(c, PlaceOf(s)) else PlaceOf(s)
  {
    hide Inv, Steady, Show, Settle, PictureFailed, Advance, Tick, NextPlace, Taken, PicturesWith, PicturesWithout;
    InvNow(s, step);
    var t := s.(now := step.at);
    ShownNotDestroyed(t);
    match step {
      case ShowStep(_, next, unit) => ShowPlace(t, next, unit, c, host);
      case SettleStep(_, id, url) => SettlePlace(t, id, url, c, host);
      case ImageErrorStep(_, ref) => PictureFailedPlace(t, ref, c, host);
      case SlideTimerStep(_, handle) =>
        SteadySame(t, t.(timers := t.timers - {handle}), c, host);
        AdvancePlace(t.(timers := t.timers - {handle}), c, host);
      case MinuteTimerStep(_) => TickPlace(t, c, host);
      case ResizeStep(_, unit) => RefitPlace(t.(unit := unit), c, host);
    }
  }

  lemma ShownNotDestroyed(s: Screen)
    requires Inv(s)
    ensures TimersArmed(s) && (s.current.Some? ==> !s.destroyed)
  {
    hide Ledger, OnScreen;
  }

  /**
   Over every possible run in which the document, what can be shown of it and its page counts stay: fetches, pictures,
   minutes and sizes leave the page where it is, and each firing of the slide timer brings the next. So every page of
   every slide that can be shown comes on in order, and after exactly as many firings as there are pages it is where it
   was.
   */
  lemma {:induction false} GoesRound(s: Screen, steps: seq<Step>, c: Cycle, host: Host)
    requires GoodHost(host) && GoodCycle(c) && Inv(s) && AtPlace(s, c)
    requires PossibleRun(s, steps, host) && TurnsThrough(s, steps, c, host)
    ensures Inv(Run(s, steps, host)) && AtPlace(Run(s, steps, host), c)
    ensures PlaceOf(Run(s, steps, host)) == NextTimes(c, PlaceOf(s), Fired(steps))
    ensures 0 < Fired(steps) <= Total(c) ==> (PlaceOf(Run(s, steps, host)) == PlaceOf(s) <==> Fired(steps) == Total(c))
  {
    hide Inv, Do, Possible, Turns, Steady, GoodHost, GoodCycle, NextPlace, AtPlace;
    Placed(s, c);
    if steps != [] {
      var front, last := steps[..|steps| - 1], steps[|steps| - 1];
      GoesRound(s, front, c, host);
      var t := Run(s, front, host);
      StepKeeps(t, last, host);
      TurnPlace(t, last, c, host);
      Placed(t, c);
    }
    if 0 < Fired(steps) <= Total(c) {
      ReturnsAfterTotal(c, PlaceOf(s), Fired(steps));
    }
  }

  lemma Placed(s: Screen, c: Cycle)
    requires AtPlace(s, c)
    ensures s.current.Some? && OnCycle(c, PlaceOf(s))
  {
  }

  // ---------- The renderer itself ----------

  /** A picture asked for: the renderer and the request that answers it share it. */
  class PictureEntry {
    const id: nat
    const ref: C.PictureRef
    const askedAt: int
    var state: EntryState
    var url: Option<Text>

    constructor (id: nat, ref: C.PictureRef, state: EntryState, askedAt: int)
      ensures Value() == Entry(id, ref, state, None, askedAt) && this.id == id && this.ref == ref
    {
      this.id, this.ref, this.state, this.url, this.askedAt := id, ref, state, None, askedAt;
    }

    function Value(): Entry
      reads this
    {
      Entry(id, ref, state, url, askedAt)
    }
  }

  datatype Request = Request(key: Text, entry: PictureEntry)

  /** The entries and the requests are of the requests made, each of its own. */
  ghost predicate Linked(pictures: map<Text, PictureEntry>, pending: map<nat, Request>, known: set<PictureEntry>,
                         asked: nat) {
    && (forall k :: k in pictures ==> pictures[k] in known)
    && (forall id :: id in pending ==> pending[id].entry in known && pending[id].entry.id == id)
    && (forall e, f :: e in known && f in known && e.id == f.id ==> e == f)
    && (forall e :: e in known ==> e.id < asked)
    && (forall j, k :: j in pictures && k in pictures && pictures[j] == pictures[k] ==> j == k)
  }

  lemma LinkedFewer(pictures: map<Text, PictureEntry>, fewer: map<Text, PictureEntry>, pending: map<nat, Request>,
                    known: set<PictureEntry>, asked: nat)
    requires Linked(pictures, pending, known, asked)
             && forall k :: k in fewer ==> k in pictures && fewer[k] == pictures[k]
    ensures Linked(fewer, pending, known, asked)
  {
  }

  lemma LinkedOneMore(pictures: map<Text, PictureEntry>, pending: map<nat, Request>, known: set<PictureEntry>,
                      asked: nat,
                      key: Text, entry: PictureEntry)
    requires Linked(pictures, pending, known, asked) && entry.id == asked
    ensures Linked(pictures[key := entry], pending, known + {entry}, asked + 1)
  {
  }

  lemma LinkedWaits(pictures: map<Text, PictureEntry>, pending: map<nat, Request>, known: set<PictureEntry>, asked: nat,
                    key: Text, entry: PictureEntry)
    requires Linked(pictures, pending, known, asked) && entry in known
    ensures Linked(pictures, pending[entry.id := Request(key, entry)], known, asked)
  {
  }

  /**
   `mountRenderer`, with the timers the browser has armed for it, the requests that have not settled, and what became of
   the URLs it was handed.
   */
  class Renderer {
    const host: Host
    var now: int
    var content: Option<C.ScreenContent>
    var current: Option<Current>
    var unit: int
    var slideTimer: Option<nat>
    var minuteTimer: Option<int>
    var destroyed: bool
    var pictures: map<Text, PictureEntry>
    var asked: nat
    var pending: map<nat, Request>
    var timers: map<nat, int>
    var armed: nat
    ghost var handed: set<nat>
    ghost var released: multiset<nat>
    ghost var known: set<PictureEntry>

    ghost predicate Valid()
      reads this
    {
      Linked(pictures, pending, known, asked)
    }

    ghost function Entries(): map<Text, Entry>
      reads this`pictures, pictures.Values
    {
      map k | k in pictures :: pictures[k].Value()
    }

    ghost function Requests(): map<nat, Asked>
      reads this`pending
    {
      map id | id in pending :: Asked(pending[id].key, pending[id].entry.ref)
    }

    ghost function State(): Screen
      reads this, pictures.Values
    {
      Screen(now, content, current, unit, slideTimer, minuteTimer, destroyed, Entries(), asked, Requests(), timers,
             armed, handed, released)
    }

    constructor (host: Host, now: int, unit: int)
      ensures this.host == host && Valid() && State() == Mounted(now, unit)
      ensures fresh(known)
    {
      this.host, this.now, this.unit := host, now, unit;
      content, current, slideTimer, minuteTimer, destroyed := None, None, None, None, false;
      pictures, asked, pending, timers, armed := map[], 0, map[], map[], 0;
      handed, released, known := {}, multiset{}, {};
    }

    // `pictureUrl`, `showable` and `slideKey`.

    function PictureUrl(ref: C.PictureRef): (url: Option<Text>)
      reads this`pictures, pictures.Values
      ensures url == UrlOf(Entries(), ref)
    {
      var key := KeyOf(ref);
      if key in pictures && pictures[key].state.Ready? then pictures[key].url else None
    }

    predicate CanShow(slide: C.Slide)
      reads this`pictures, this`now, pictures.Values
    {
      if UntilOf(slide).Some? && now >= UntilOf(slide).value then false
      else if slide.body.Picture? then PictureUrl(slide.body.picture).Some?
      else true
    }

    function SlideKey(slide: C.Slide, shown: C.ScreenContent): Look
      reads this`pictures, this`now, pictures.Values
    {
      var ref := PictureOf(slide);
      Look(slide, shown.locale, shown.timeZone, if ref.Some? then PictureUrl(ref.value) else None,
           if slide.body.Availability? then Some(now / MINUTE) else None, host.dayStart(now, shown.timeZone))
    }

    lemma Reads(slide: C.Slide, shown: C.ScreenContent)
      ensures CanShow(slide) == Showable(State(), slide)
              && SlideKey(slide, shown) == LookOf(State(), slide, shown, host)
      ensures (slide.body.Picture? ==> PictureUrl(slide.body.picture).Some?) == Drawable(State().pictures, slide)
    {
    }

    lemma EntryAt(key: Text)
      ensures key in Entries() <==> key in pictures
      ensures key in pictures ==> Entries()[key] == pictures[key].Value()
    {
    }

    lemma RequestAt(id: nat)
      ensures id in Requests() <==> id in pending
      ensures id in pending ==> Requests()[id] == Asked(pending[id].key, pending[id].entry.ref)
    {
    }

    // ---------- Pictures ----------

    method ReleaseEntry(entry: PictureEntry)
      modifies this`released
      ensures released == old(released) + HeldBy(entry.Value())
      ensures entry.url.None? ==> released == old(released)
    {
      if entry.url.Some? {
        released := released + multiset{entry.id};
      }
    }

    lemma EntriesDistinct()
      requires Valid()
      ensures DistinctIds(Entries()) && Entries().Keys == pictures.Keys
    {
    }

    method ReleaseAllPictures()
      requires Valid()
      modifies this`released, this`pictures
      ensures Valid() && State() == ReleaseAll(old(State()))
    {
      ghost var held := Entries();
      EntriesDistinct();
      ReleaseEach(held);
      LinkedFewer(pictures, map[], pending, known, asked);
      pictures := map[];
      assert Entries() == map[];
    }

    method ReleaseEach(ghost held: map<Text, Entry>)
      requires held == Entries() && DistinctIds(held)
      modifies this`released
      ensures released == old(released) + multiset(HeldIds(held))
    {
      hide HeldIds, HeldBy, DistinctIds, Besides;
      var keys := pictures.Keys;
      NothingRead(held, keys);
      while keys != {}
        invariant keys <= pictures.Keys
        invariant released == old(released) + multiset(HeldIds(Besides(held, keys)))
        decreases |keys|
      {
        var k :| k in keys;
        ReleaseEntry(pictures[k]);
        assert held[k] == pictures[k].Value();
        HeldOneMore(held, keys, k);
        keys := keys - {k};
      }
      AllRead(held);
    }

    /** The keys and the pictures of the rotation, in order. */
    method Wanted(rotation: seq<C.Slide>) returns (keys: seq<Text>, refs: map<Text, C.PictureRef>)
      ensures keys == WantedKeys(rotation) && refs == WantedRefs(rotation)
    {
      keys, refs := [], map[];
      for i := 0 to |rotation|
        invariant keys == WantedKeys(rotation[..i]) && refs == WantedRefs(rotation[..i])
      {
        assert rotation[..i + 1][..i] == rotation[..i];
        var ref := PictureOf(rotation[i]);
        if ref.Some? {
          if KeyOf(ref.value) !in keys {
            keys := keys + [KeyOf(ref.value)];
          }
          refs := refs[KeyOf(ref.value) := ref.value];
        }
      }
      assert rotation[..|rotation|] == rotation;
    }

    method LetGoOfRest(refs: map<Text, C.PictureRef>)
      requires Valid()
      modifies this`released, this`pictures
      ensures Valid() && State() == LetGo(old(State()), refs)
    {
      hide Entries, Requests, Linked, HeldIds, Unwanted, DistinctIds;
      EntriesDistinct();
      PruneEntries(refs);
    }

    method PruneEntries(refs: map<Text, C.PictureRef>)
      requires Valid() && DistinctIds(Entries()) && Entries().Keys == pictures.Keys
      modifies this`released, this`pictures
      ensures Valid() && released == old(released) + multiset(HeldIds(Unwanted(old(Entries()), refs)))
      ensures Entries() == map k | k in old(Entries()) && k in refs :: old(Entries())[k]
    {
      hide Linked, HeldIds, Unwanted, Remaining, DistinctIds;
      ReleaseUnwanted(refs, Entries());
      RemainingAre(old(pictures), refs);
      LinkedFewer(old(pictures), pictures, pending, known, asked);
    }

    method ReleaseUnwanted(refs: map<Text, C.PictureRef>, ghost held: map<Text, Entry>)
      requires DistinctIds(held) && held.Keys == pictures.Keys
               && forall k :: k in pictures ==> pictures[k].Value() == held[k]
      modifies this`released, this`pictures
      ensures pictures == Remaining(old(pictures), {}, refs)
      ensures released == old(released) + multiset(HeldIds(Unwanted(held, refs)))
    {
      hide HeldIds, HeldBy, DistinctIds, Remaining, Unwanted, Besides, PictureEntry.Value;
      ghost var before := pictures;
      ghost var gone := Unwanted(held, refs);
      UnwantedAre(held, refs);
      var keys := pictures.Keys;
      NothingRead(gone, keys);
      AllRemain(before, refs);
      while keys != {}
        invariant keys <= before.Keys
        invariant pictures == Remaining(before, keys, refs)
        invariant released == old(released) + multiset(HeldIds(Besides(gone, keys)))
        decreases |keys|
      {
        var k :| k in keys;
        OneGoes(before, keys, refs, k);
        if k !in refs {
          assert gone[k] == pictures[k].Value();
          ReleaseEntry(pictures[k]);
          pictures := pictures - {k};
          HeldOneMore(gone, keys, k);
        } else {
          NotHeld(gone, keys, k);
        }
        keys := keys - {k};
      }
      AllRead(gone);
    }

    /** A new entry takes the place of the one its key had. */
    method AddEntry(key: Text, ref: C.PictureRef, state: EntryState) returns (entry: PictureEntry)
      requires Valid()
      modifies this`pictures, this`asked, this`known
      ensures Valid() && fresh(entry) && known == old(known) + {entry} && asked == old(asked) + 1
      ensures entry.id == old(asked) && entry.ref == ref && key in pictures && pictures[key] == entry && entry in known
      ensures Entries() == old(Entries())[key := Entry(old(asked), ref, state, None, now)]
    {
      hide Linked;
      entry := new PictureEntry(asked, ref, state, now);
      LinkedOneMore(pictures, pending, known, asked, key, entry);
      known := known + {entry};
      asked := asked + 1;
      pictures := pictures[key := entry];
      assert Entries() == old(Entries())[key := entry.Value()];
    }

    /** What the entry of a key holds changes. */
    method SetEntry(key: Text, state: EntryState, url: Option<Text>)
      requires Valid() && key in pictures
      modifies pictures[key]
      ensures Valid() && Entries() == old(Entries())[key := old(Entries())[key].(state := state, url := url)]
    {
      pictures[key].state := state;
      pictures[key].url := url;
      forall k | k in pictures && k != key ensures pictures[k].Value() == old(pictures[k].Value()) {
        assert pictures[k] != pictures[key];
      }
    }

    /** `ask`, to where it waits for the picture, or has none to wait for. */
    method AskPicture(key: Text, ref: C.PictureRef)
      requires Valid()
      modifies this`pictures, this`asked, this`pending, this`known
      ensures Valid() && State() == Ask(old(State()), key, ref, host) && fresh(known - old(known))
    {
      hide Entries, Requests, Linked;
      var entry := AddEntry(key, ref, if host.hasPicture then Pending else Failed);
      if host.hasPicture {
        if host.throws(entry.id) {
          SetEntry(key, Failed, None);
        } else {
          Await(key, entry);
        }
      }
    }

    method Await(key: Text, entry: PictureEntry)
      requires Valid() && entry in known
      modifies this`pending
      ensures Valid() && Requests() == old(Requests())[entry.id := Asked(key, entry.ref)]
    {
      LinkedWaits(pictures, pending, known, asked, key, entry);
      pending := pending[entry.id := Request(key, entry)];
    }

    method AskEach(keys: seq<Text>, refs: map<Text, C.PictureRef>)
      requires Valid()
      modifies this`pictures, this`asked, this`pending, this`known
      ensures Valid() && State() == AskWanted(old(State()), keys, refs, host) && fresh(known - old(known))
    {
      hide Entries, Requests, Linked, Ask;
      for i := 0 to |keys|
        invariant Valid() && State() == AskWanted(old(State()), keys[..i], refs, host) && fresh(known - old(known))
      {
        assert keys[..i + 1][..i] == keys[..i];
        var key := keys[i];
        EntryAt(key);
        if key in refs
           && (key !in pictures || (pictures[key].state.Failed? && now - pictures[key].askedAt >= PICTURE_RETRY)) {
          AskPicture(key, refs[key]);
        }
      }
      assert keys[..|keys|] == keys;
    }

    /** `syncPictures`. */
    method SyncWith(next: C.ScreenContent)
      requires Valid()
      modifies this`pictures, this`asked, this`pending, this`known, this`released
      ensures Valid() && State() == SyncPictures(old(State()), next, host) && fresh(known - old(known))
    {
      hide Entries, Requests, Linked, AskWanted, LetGo;
      var keys, refs := Wanted(next.rotation);
      LetGoOfRest(refs);
      AskEach(keys, refs);
    }

    // ---------- The rotation ----------

    method ClearTimer()
      modifies this`slideTimer, this`timers
      ensures State() == ClearSlideTimer(old(State()))
    {
      if slideTimer.Some? {
        timers := timers - {slideTimer.value};
        slideTimer := None;
      }
    }

    method ArmTimer(delay: int)
      modifies this`slideTimer, this`timers, this`armed
      ensures State() == ArmSlideTimer(old(State()), now + delay)
    {
      timers := timers[armed := now + delay];
      slideTimer := Some(armed);
      armed := armed + 1;
    }

    /** `draw`. */
    method DrawSlide(slide: C.Slide, index: nat, endsAt: int, page: nat)
      modifies this`current, this`slideTimer, this`timers, this`armed
      ensures State() == DrawOrLeave(old(State()), slide, index, endsAt, page, host)
      decreases if Drawable(State().pictures, slide) then 0 else 2, 0
    {
      hide Entries, Requests, LookOf, UrlOf, LeavesAt, Advance, ClearSlideTimer, ArmSlideTimer, Drawable, SlideKey,
           PictureUrl;
      if content.None? {
        return;
      }
      Reads(slide, content.value);
      var look := SlideKey(slide, content.value);
      var shown, pages := page, if current.Some? then current.value.pages else 1;
      if !Stays(current, slide, look, page) {
        if slide.body.Picture? && PictureUrl(slide.body.picture).None? {
          current := None;
          AdvancePage();
          return;
        }
        var fit := host.fit(look, unit, page);
        shown, pages := fit.page, fit.pages;
      }
      current := Some(Current(index, slide.id, look, endsAt, shown, pages));
      ClearTimer();
      ArmTimer(Max(0, LeavesAt(slide, endsAt) - now));
    }

    /** `showFrom`. */
    method ShowFirst(from: nat)
      modifies this`current, this`slideTimer, this`timers, this`armed
      ensures State() == ShowFrom(old(State()), from, host)
      decreases 1, 0
    {
      hide Entries, Requests, Showable, Draw, UrlOf, UntilOf, Stays, LookOf;
      if content.None? {
        return;
      }
      var rotation := content.value.rotation;
      for step := 0 to |rotation|
        invariant State() == old(State())
        invariant FindFrom(State(), rotation, from, 0) == FindFrom(State(), rotation, from, step)
      {
        var index := (from + step) % |rotation|;
        var slide := rotation[index];
        Reads(slide, content.value);
        if CanShow(slide) {
          ShowableDrawable(State(), slide);
          DrawSlide(slide, index, now + slide.seconds * SECOND, 0);
          return;
        }
      }
      ClearTimer();
      current := None;
    }

    /** `advance`. */
    method AdvancePage()
      modifies this`current, this`slideTimer, this`timers, this`armed
      ensures State() == Advance(old(State()), host)
      decreases 1, 1
    {
      hide Entries, Requests, Showable, Draw, UrlOf, UntilOf, Stays, LookOf, ShowFrom;
      slideTimer := None;
      if current.Some? && content.Some? && current.value.index < |content.value.rotation| {
        var slide := content.value.rotation[current.value.index];
        Reads(slide, content.value);
        if current.value.page + 1 < current.value.pages && CanShow(slide) {
          ShowableDrawable(State(), slide);
          DrawSlide(slide, current.value.index, now + slide.seconds * SECOND, current.value.page + 1);
          return;
        }
      }
      ShowFirst(if current.None? then 0 else current.value.index + 1);
    }

    /** `pictureChanged`. */
    method RedrawPicture(key: Text)
      modifies this`current, this`slideTimer, this`timers, this`armed
      ensures State() == PictureChanged(old(State()), key, host)
    {
      hide Entries, Requests, DrawOrLeave, Advance, ShowFrom, UrlOf, KeyOf;
      if content.None? {
        return;
      }
      if current.None? {
        ShowFirst(0);
        return;
      }
      if current.value.index < |content.value.rotation| {
        var slide := content.value.rotation[current.value.index];
        var ref := PictureOf(slide);
        if ref.Some? && KeyOf(ref.value) == key {
          if slide.body.Picture? && PictureUrl(ref.value).None? {
            AdvancePage();
          } else {
            DrawSlide(slide, current.value.index, current.value.endsAt, current.value.page);
          }
        }
      }
    }

    method TakeRequest(id: nat) returns (request: Request)
      requires Valid() && id in pending
      modifies this`pending
      ensures Valid() && Requests() == old(Requests()) - {id}
      ensures id in old(Requests()) && old(Requests())[id].key == request.key
      ensures request.key in Entries() <==> request.key in pictures
      ensures request.key in pictures ==> (pictures[request.key] == request.entry <==> Entries()[request.key].id == id)
    {
      hide Linked;
      request := pending[id];
      LinkedSettles(pictures, pending, known, asked, id);
      pending := pending - {id};
    }

    /** `settle`, of the request a picture was asked for with. */
    method PictureSettled(id: nat, url: Option<Text>)
      requires Valid() && id in pending
      modifies this, pictures.Values
      ensures Valid() && known == old(known) && State() == Settle(old(State()), id, url, host)
    {
      hide Entries, Requests, PictureChanged, Linked;
      var request := TakeRequest(id);
      if url.Some? {
        handed := handed + {id};
      }
      if destroyed || request.key !in pictures || pictures[request.key] != request.entry {
        if url.Some? {
          released := released + multiset{id};
        }
        return;
      }
      ChangeEntry(request.key, if url.None? then Failed else Ready, url);
    }

    /** What an entry holds has changed, and so may what is on screen. */
    method ChangeEntry(key: Text, state: EntryState, url: Option<Text>)
      requires Valid() && key in pictures
      modifies pictures[key], this`current, this`slideTimer, this`timers, this`armed
      ensures Valid()
      ensures var entry := old(Entries())[key].(state := state, url := url);
              State() == PictureChanged(old(State()).(pictures := old(Entries())[key := entry]), key, host)
    {
      hide Entries, Requests, PictureChanged, Linked;
      SetEntry(key, state, url);
      RedrawPicture(key);
    }

    /** `pictureFailed`. */
    method PictureBroken(ref: C.PictureRef)
      requires Valid()
      modifies this, pictures.Values
      ensures Valid() && known == old(known) && State() == PictureFailed(old(State()), ref, host)
    {
      hide Entries, Requests, PictureChanged, Linked, KeyOf;
      var key := KeyOf(ref);
      EntryAt(key);
      if key !in pictures || !pictures[key].state.Ready? {
        return;
      }
      ReleaseEntry(pictures[key]);
      assert State() == Release(old(State()), old(Entries())[key]);
      ChangeEntry(key, Failed, None);
    }

    /** `refit`. */
    method FitAgain()
      modifies this`current
      ensures State() == Refit(old(State()), host)
    {
      if current.Some? {
        var fit := host.fit(current.value.look, unit, current.value.page);
        current := Some(current.value.(page := fit.page, pages := fit.pages));
      }
    }

    method ScheduleMinute()
      modifies this`minuteTimer
      ensures State() == ScheduleTick(old(State()))
    {
      minuteTimer := Some(now + (MINUTE - now % MINUTE));
    }

    /** `tick`. */
    method MinuteTick()
      modifies this`current, this`slideTimer, this`timers, this`armed, this`minuteTimer
      ensures State() == Tick(old(State()), host)
    {
      hide Entries, Requests, DrawOrLeave, ShowFrom, UrlOf, UntilOf, LookOf;
      minuteTimer := None;
      if destroyed {
        return;
      }
      if content.Some? {
        if current.None? {
          ShowFirst(0);
        } else if current.value.index < |content.value.rotation| {
          var slide := content.value.rotation[current.value.index];
          Reads(slide, content.value);
          if SlideKey(slide, content.value) != current.value.look {
            DrawSlide(slide, current.value.index, current.value.endsAt, current.value.page);
          }
        }
      }
      ScheduleMinute();
    }

    /** The place of the slide with an id, as `findIndex` finds it. */
    method FindSlide(rotation: seq<C.Slide>, id: Text) returns (index: Option<nat>)
      ensures index == IndexOfId(rotation, id, 0)
    {
      for i := 0 to |rotation|
        invariant IndexOfId(rotation, id, 0) == IndexOfId(rotation, id, i)
      {
        if rotation[i].id == id {
          return Some(i);
        }
      }
      return None;
    }

    method TakeDocument(next: C.ScreenContent, unit: int)
      requires Valid()
      modifies this
      ensures Valid() && State() == Taken(old(State()), next, unit, host) && fresh(known - old(known))
    {
      hide Entries, Requests, Linked, SyncPictures;
      content := Some(next);
      this.unit := unit;
      FitAgain();
      SyncWith(next);
    }

    /** `show`, the canvas then having this unit. */
    method ShowDocument(next: C.ScreenContent, unit: int)
      requires Valid()
      modifies this
      ensures Valid() && State() == Show(old(State()), next, unit, host) && fresh(known - old(known))
    {
      hide Entries, Requests, Linked, Taken, ShowFrom, Draw, KeptAt;
      if destroyed {
        return;
      }
      var previous := current;
      TakeDocument(next, unit);
      TakenContent(old(State()), next, unit, host);
      GoOn(next, previous);
      ScheduleMinute();
    }

    /** The slide that was on screen goes on when the document still has it, and otherwise the rotation starts. */
    method GoOn(next: C.ScreenContent, previous: Option<Current>)
      requires content == Some(next)
      modifies this`current, this`slideTimer, this`timers, this`armed
      ensures var t := old(State());
              var kept := KeptAt(t, next, previous);
              State()
              == if kept.Some? then
                   Draw(t, next.rotation[kept.value], kept.value, previous.value.endsAt, previous.value.page, host)
                         else ShowFrom(ClearSlideTimer(t.(current := None)), 0, host)
    {
      hide Entries, Requests, Showable, ShowFrom, UrlOf, UntilOf, Draw, LookOf, Stays;
      if previous.Some? {
        var kept := FindSlide(next.rotation, previous.value.id);
        if kept.Some? {
          Reads(next.rotation[kept.value], next);
          ShowableDrawable(State(), next.rotation[kept.value]);
          if CanShow(next.rotation[kept.value]) {
            DrawSlide(next.rotation[kept.value], kept.value, previous.value.endsAt, previous.value.page);
            return;
          }
        }
      }
      current := None;
      ClearTimer();
      ShowFirst(0);
    }

    method ForgetDocument()
      modifies this`content, this`current
      ensures State() == old(State()).(content := None, current := None)
    {
      content := None;
      current := None;
    }

    method ClearMinute()
      modifies this`minuteTimer
      ensures State() == old(State()).(minuteTimer := None)
    {
      if minuteTimer.Some? {
        minuteTimer := None;
      }
    }

    /** `message`. */
    method ShowMessage(unit: int)
      requires Valid()
      modifies this
      ensures Valid() && known == old(known) && State() == Message(old(State()), unit)
    {
      hide Entries, Requests, Linked, ReleaseAll, ClearSlideTimer;
      if destroyed {
        return;
      }
      ForgetDocument();
      ClearTimer();
      ReleaseAllPictures();
      this.unit := unit;
    }

    /** `destroy`. */
    method DestroyAll()
      requires Valid()
      modifies this
      ensures Valid() && known == old(known) && State() == Destroy(old(State()))
    {
      hide Entries, Requests, Linked, ReleaseAll, ClearSlideTimer;
      if destroyed {
        return;
      }
      destroyed := true;
      assert State() == old(State()).(destroyed := true);
      ClearTimer();
      ReleasedApart(State());
      ClearMinute();
      ReleaseAllPictures();
      ForgetDocument();
    }

    /** The browser calls `advance` for a slide timer that is due. */
    method TimerFired(handle: nat)
      modifies this`current, this`slideTimer, this`timers, this`armed
      ensures State() == TimerFires(old(State()), handle, host)
    {
      hide Entries, Requests, Advance;
      timers := timers - {handle};
      AdvancePage();
    }

    /** `layout`, when the canvas has another size. */
    method ResizeTo(unit: int)
      modifies this`current, this`unit
      ensures State() == Resize(old(State()), unit, host)
    {
      if !destroyed {
        this.unit := unit;
        FitAgain();
      }
    }

    method Perform(step: Step)
      requires Valid()
      modifies this, pictures.Values
      ensures Valid() && State() == Do(old(State()), step, host) && fresh(known - old(known))
    {
      hide Entries, Requests, Linked, Show, Message, Destroy, Settle, PictureFailed, TimerFires, Tick, Resize;
      now := step.at;
      match step {
        case ShowStep(_, next, unit) => ShowDocument(next, unit);
        case MessageStep(_, unit) => ShowMessage(unit);
        case DestroyStep(_) => DestroyAll();
        case SettleStep(_, id, url) =>
          RequestAt(id);
          if id in pending { PictureSettled(id, url); }
        case ImageErrorStep(_, ref) => PictureBroken(ref);
        case SlideTimerStep(_, handle) => TimerFired(handle);
        case MinuteTimerStep(_) => MinuteTick();
        case ResizeStep(_, unit) => ResizeTo(unit);
      }
    }
  }

  lemma ReleasedApart(s: Screen)
    ensures ReleaseAll(s.(minuteTimer := None)) == ReleaseAll(s).(minuteTimer := None)
  {
    hide HeldIds;
  }

  lemma ShowableDrawable(s: Screen, slide: C.Slide)
    ensures Showable(s, slide) ==> Drawable(s.pictures, slide)
  {
  }

  lemma TakenContent(s: Screen, next: C.ScreenContent, unit: int, host: Host)
    ensures Taken(s, next, unit, host).content == Some(next)
  {
    AskWantedContent(LetGo(Refit(s.(content := Some(next), unit := unit), host), WantedRefs(next.rotation)),
                     WantedKeys(next.rotation),
                     WantedRefs(next.rotation), host);
  }

  lemma {:induction false} AskWantedContent(s: Screen, keys: seq<Text>, refs: map<Text, C.PictureRef>, host: Host)
    ensures AskWanted(s, keys, refs, host).content == s.content
  {
    if keys != [] {
      AskWantedContent(s, keys[..|keys| - 1], refs, host);
    }
  }

  lemma LinkedSettles(pictures: map<Text, PictureEntry>, pending: map<nat, Request>, known: set<PictureEntry>,
                      asked: nat, id: nat)
    requires Linked(pictures, pending, known, asked) && id in pending
    ensures Linked(pictures, pending - {id}, known, asked) && pending[id].entry.id == id
    ensures forall k :: k in pictures && pictures[k].id == id ==> pictures[k] == pending[id].entry
  {
  }

  /** The entries of the keys already gone through. */
  function Besides(held: map<Text, Entry>, keys: set<Text>): map<Text, Entry> {
    map j | j in held && j !in keys :: held[j]
  }

  function HeldBy(e: Entry): multiset<nat> {
    if e.url.Some? then multiset{e.id} else multiset{}
  }

  /** The pictures not let go of yet, `keys` being those not looked at. */
  function Remaining<T>(pictures: map<Text, T>, keys: set<Text>, refs: map<Text, C.PictureRef>): map<Text, T> {
    map k | k in pictures && (k in keys || k in refs) :: pictures[k]
  }

  lemma AllRemain<T>(pictures: map<Text, T>, refs: map<Text, C.PictureRef>)
    ensures Remaining(pictures, pictures.Keys, refs) == pictures
  {
  }

  lemma RemainingAre<T>(pictures: map<Text, T>, refs: map<Text, C.PictureRef>)
    ensures var rest := Remaining(pictures, {}, refs);
            forall k :: (k in rest <==> k in pictures && k in refs) && (k in rest ==> rest[k] == pictures[k])
  {
  }

  lemma OneGoes<T>(pictures: map<Text, T>, keys: set<Text>, refs: map<Text, C.PictureRef>, k: Text)
    requires k in keys && keys <= pictures.Keys
    ensures var rest := Remaining(pictures, keys, refs);
            && k in rest && rest[k] == pictures[k]
            && Remaining(pictures, keys - {k}, refs) == if k in refs then rest else rest - {k}
  {
  }

  lemma UnwantedAre(pictures: map<Text, Entry>, refs: map<Text, C.PictureRef>)
    ensures Unwanted(pictures, refs).Keys == pictures.Keys - refs.Keys
    ensures forall k :: k in pictures && k !in refs ==> Unwanted(pictures, refs)[k] == pictures[k]
    ensures DistinctIds(pictures) ==> DistinctIds(Unwanted(pictures, refs))
  {
  }

  lemma NothingRead(held: map<Text, Entry>, keys: set<Text>)
    requires held.Keys <= keys
    ensures multiset(HeldIds(Besides(held, keys))) == multiset{}
  {
    assert HeldIds(Besides(held, keys)) == {};
  }

  lemma NotHeld(held: map<Text, Entry>, keys: set<Text>, k: Text)
    requires k !in held
    ensures Besides(held, keys - {k}) == Besides(held, keys)
  {
  }

  lemma AllRead(held: map<Text, Entry>)
    ensures Besides(held, {}) == held
  {
  }

  lemma HeldOneMore(held: map<Text, Entry>, keys: set<Text>, k: Text)
    requires DistinctIds(held) && k in held && k in keys
    ensures multiset(HeldIds(Besides(held, keys - {k}))) == multiset(HeldIds(Besides(held, keys))) + HeldBy(held[k])
  {
    var before, after := Besides(held, keys), Besides(held, keys - {k});
    forall id ensures id in HeldIds(after) <==> id in HeldIds(before) || (held[k].url.Some? && id == held[k].id) {
      if id in HeldIds(before) {
        var j :| j in before && before[j].url.Some? && before[j].id == id;
        assert j in after && after[j] == before[j];
      }
      if id in HeldIds(after) {
        var j :| j in after && after[j].url.Some? && after[j].id == id;
        assert j != k ==> j in before && before[j] == after[j];
      }
      if held[k].url.Some? && id == held[k].id {
        assert k in after && after[k] == held[k];
      }
    }
    assert held[k].id !in HeldIds(before);
  }
}
