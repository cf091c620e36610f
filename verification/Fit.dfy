/**
 Pagination: packages/display/src/fit.ts. Layout is a function from what of a slide is visible to whether it overflows;
 the smaller sizes are percents.
 */
module Fit {
  import opened Wrappers
  import opened Texts

  const SCALE_STEP := 5
  const MIN_SCALE := 60

  // ---------- A slide ----------

  /** A text node: the list item it is in, if in one, and the elements between it and the slide. */
  datatype Node = Node(item: Option<nat>, ancestors: set<nat>)

  /**
   What of a slide the layout sees: which items are hidden, the size set on it, the nodes' text, the elements marked
   elsewhere.
   */
  datatype View = View(hidden: seq<bool>, scale: Option<int>, data: seq<Text>, elsewhere: set<nat>)

  /**
   What a slide is before it is fitted, and what the page makes of it: `overflows` of the canvas's unit and a view, and
   `segments`, the ends of the characters a reader sees in a text.
   */
  datatype Slide = Slide(items: nat, nodes: seq<Node>, texts: seq<Text>, overflows: (int, View) -> bool,
                         segments: Text -> seq<nat>)

  ghost predicate Increasing(ends: seq<nat>) {
    forall i, j :: 0 <= i < j < |ends| ==> ends[i] < ends[j]
  }

  /** The ends of a text's characters: in order, none at its start, the last at its end. */
  ghost predicate GoodSegments(t: Text, ends: seq<nat>) {
    && Increasing(ends) && (forall i :: 0 <= i < |ends| ==> 0 < ends[i] <= |t|)
    && (t != [] ==> ends != [] && ends[|ends| - 1] == |t|)
  }

  ghost predicate ValidSlide(slide: Slide) {
    && |slide.texts| == |slide.nodes|
    && (forall i :: 0 <= i < |slide.nodes| && slide.nodes[i].item.Some? ==> slide.nodes[i].item.value < slide.items)
    && (forall t :: GoodSegments(t, slide.segments(t)))
  }

  /** A page is a range of items, at a size when one is set, with a range of their text when it is split. */
  datatype Page = Page(from: nat, to: nat, scale: Option<int>, text: Option<Range>)

  datatype SlideFit = SlideFit(page: nat, pages: nat, fits: bool)

  function Hidden(n: nat, from: nat, to: nat): seq<bool> {
    seq(n, i requires 0 <= i < n => i < from || i >= to)
  }

  /** The slide with some of its items, at a size, and all their text. */
  function ItemView(slide: Slide, from: nat, to: nat, scale: Option<int>): View {
    View(Hidden(slide.items, from, to), scale, slide.texts, {})
  }

  function Pristine(slide: Slide): View {
    ItemView(slide, 0, slide.items, None)
  }

  predicate Fits(slide: Slide, unit: int, v: View) {
    !slide.overflows(unit, v)
  }

  // ---------- Binary search ----------

  /** The binary search of `fitting` and `furthest`: the last of low to high found to fit, and low when none is. */
  function Search(fits: nat -> bool, low: nat, high: nat): (r: nat)
    requires low <= high
    ensures low <= r <= high
    decreases high - low
  {
    if low == high then low
    else
      var middle := (low + high + 1) / 2;
      if fits(middle) then Search(fits, middle, high) else Search(fits, low, middle - 1)
  }

  lemma SearchStep(fits: nat -> bool, low: nat, high: nat)
    requires low <= high
    ensures low == high ==> Search(fits, low, high) == low
    ensures low < high ==>
              Search(fits, low, high)
              == if fits((low + high + 1) / 2) then Search(fits, (low + high + 1) / 2, high)
                 else Search(fits, low, (low + high + 1) / 2 - 1)
  {
  }

  /** What comes out was found to fit, unless it is the least. */
  lemma {:induction false} SearchFits(fits: nat -> bool, low: nat, high: nat)
    requires low <= high
    ensures Search(fits, low, high) == low || fits(Search(fits, low, high))
    decreases high - low
  {
    if low < high {
      var middle := (low + high + 1) / 2;
      if fits(middle) { SearchFits(fits, middle, high); } else { SearchFits(fits, low, middle - 1); }
    }
  }

  /** When less always fits where more does, nothing beyond what comes out fits. */
  lemma {:induction false} SearchFurthest(fits: nat -> bool, low: nat, high: nat, n: nat)
    requires low <= high && Search(fits, low, high) < n <= high
    requires forall a: nat, b: nat :: low <= a <= b <= high && fits(b) ==> fits(a)
    ensures !fits(n)
    decreases high - low
  {
    if low < high {
      var middle := (low + high + 1) / 2;
      if fits(middle) {
        SearchFurthest(fits, middle, high, n);
      } else if n < middle {
        SearchFurthest(fits, low, middle - 1, n);
      }
    }
  }

  // ---------- Pages of items ----------

  datatype Range = Range(from: nat, to: nat)

  /** Whether the items from `start`, so many of them, fit. */
  function CountFits(fits: (nat, nat) -> bool, start: nat): nat -> bool {
    (count: nat) => fits(start, start + count)
  }

  /** The count `fitting` comes to. */
  function CountAt(fits: (nat, nat) -> bool, n: nat, start: nat): (count: nat)
    requires start < n
    ensures 1 <= count <= n - start
  {
    Search(CountFits(fits, start), 1, n - start)
  }

  /** `itemPages` from an item on. */
  function ItemPagesFrom(fits: (nat, nat) -> bool, n: nat, start: nat): seq<Range>
    requires start <= n
    decreases n - start
  {
    if start == n then []
    else [Range(start, start + CountAt(fits, n, start))] + ItemPagesFrom(fits, n, start + CountAt(fits, n, start))
  }

  function ItemPages(fits: (nat, nat) -> bool, n: nat): seq<Range> {
    if n <= 1 then [Range(0, n)] else ItemPagesFrom(fits, n, 0)
  }

  /** Consecutive ranges, none empty, from `from` to `to`. */
  ghost predicate Cuts(ranges: seq<Range>, from: nat, to: nat) {
    if ranges == [] then from == to
    else ranges[0].from == from && from < ranges[0].to && Cuts(ranges[1..], ranges[0].to, to)
  }

  lemma CutsMore(first: Range, rest: seq<Range>, to: nat)
    requires first.from < first.to && Cuts(rest, first.to, to)
    ensures Cuts([first] + rest, first.from, to)
  {
    assert ([first] + rest)[1..] == rest;
  }

  /** A range was found to fit, or is of one item. */
  predicate RangeFits(r: Range, fits: (nat, nat) -> bool) {
    r.to == r.from + 1 || fits(r.from, r.to)
  }

  ghost predicate EachFits(ranges: seq<Range>, fits: (nat, nat) -> bool) {
    forall i :: 0 <= i < |ranges| ==> RangeFits(ranges[i], fits)
  }

  /**
   The pages cut the list into consecutive ranges that are not empty, and each of more than one item was measured to
   fit.
   */
  lemma {:induction false} ItemPagesCut(fits: (nat, nat) -> bool, n: nat, start: nat)
    requires start <= n
    ensures Cuts(ItemPagesFrom(fits, n, start), start, n) && EachFits(ItemPagesFrom(fits, n, start), fits)
    decreases n - start
  {
    if start < n {
      var count := CountAt(fits, n, start);
      CountFound(fits, n, start);
      ItemPagesCut(fits, n, start + count);
      CutsMore(Range(start, start + count), ItemPagesFrom(fits, n, start + count), n);
    }
  }

  lemma CountFound(fits: (nat, nat) -> bool, n: nat, start: nat)
    requires start < n
    ensures RangeFits(Range(start, start + CountAt(fits, n, start)), fits)
  {
    SearchFits(CountFits(fits, start), 1, n - start);
  }

  /** Every part of what fits, fits. */
  ghost predicate Hereditary(fits: (nat, nat) -> bool, n: nat) {
    forall a: nat, b: nat, c: nat, d: nat :: a <= c < d <= b <= n && fits(a, b) ==> fits(c, d)
  }

  /** No page could hold more. */
  lemma CountFurthest(fits: (nat, nat) -> bool, n: nat, start: nat, end: nat)
    requires Hereditary(fits, n) && start < n && start + CountAt(fits, n, start) < end <= n
    ensures !fits(start, end)
  {
    var counts := CountFits(fits, start);
    forall a: nat, b: nat | 1 <= a <= b <= n - start && counts(b) ensures counts(a) {
      assert fits(start, start + b) ==> fits(start, start + a);
    }
    SearchFurthest(counts, 1, n - start, end - start);
    assert !counts(end - start);
  }

  /**
   Greedy stays ahead: a cut that begins no later, of ranges that fit or are of one item, has at least as many pages as
   `itemPages` makes.
   */
  lemma {:induction false} GreedyIsOptimal(fits: (nat, nat) -> bool, n: nat, start: nat, other: seq<Range>,
                                           otherStart: nat)
    requires Hereditary(fits, n) && otherStart <= start <= n
    requires Cuts(other, otherStart, n) && EachFits(other, fits)
    ensures |ItemPagesFrom(fits, n, start)| <= |other|
    decreases |other|, n - start
  {
    if start < n {
      CutsEnds(other, otherStart, n);
      var end := other[0].to;
      assert RangeFits(other[0], fits);
      var next := start + CountAt(fits, n, start);
      if next < end {
        CountFurthest(fits, n, start, end);
      }
      if end <= start {
        GreedyIsOptimal(fits, n, start, other[1..], end);
      } else {
        GreedyIsOptimal(fits, n, next, other[1..], end);
      }
    }
  }

  lemma {:induction false} CutsEnds(ranges: seq<Range>, from: nat, to: nat)
    requires Cuts(ranges, from, to)
    ensures from <= to && (from < to ==> ranges != [] && ranges[0].to <= to && Cuts(ranges[1..], ranges[0].to, to))
    ensures from == to ==> ranges == []
  {
    if ranges != [] {
      CutsEnds(ranges[1..], ranges[0].to, to);
    }
  }

  /**
   `itemPages` of a list that has an item: consecutive ranges that cover it, of which no cut into ranges that fit or are
   of one item has fewer.
   */
  lemma ItemPagesOptimal(fits: (nat, nat) -> bool, n: nat, other: seq<Range>)
    requires n > 0
    ensures Cuts(ItemPages(fits, n), 0, n) && EachFits(ItemPages(fits, n), fits)
    ensures Hereditary(fits, n) && Cuts(other, 0, n) && EachFits(other, fits) ==> |ItemPages(fits, n)| <= |other|
  {
    ItemPagesCut(fits, n, 0);
    if Hereditary(fits, n) && Cuts(other, 0, n) && EachFits(other, fits) {
      GreedyIsOptimal(fits, n, 0, other, 0);
    }
  }

  // ---------- The text of a slide ----------

  /** A node of the flow: its index, its text, and where the text starts in the whole. */
  datatype Entry = Entry(node: nat, text: Text, first: nat)

  datatype Flow = Flow(entries: seq<Entry>, whole: Text, wordEnds: seq<nat>)

  /** How far the white space, or what is none, reaches from a place. */
  function SpaceRun(t: Text, i: nat): (j: nat)
    requires i <= |t|
    ensures i <= j <= |t| && (forall k :: i <= k < j ==> IsSpace(t[k])) && (j < |t| ==> !IsSpace(t[j]))
    decreases |t| - i
  {
    if i < |t| && IsSpace(t[i]) then SpaceRun(t, i + 1) else i
  }

  function WordRun(t: Text, i: nat): (j: nat)
    requires i <= |t|
    ensures i <= j <= |t| && (i < |t| && !IsSpace(t[i]) ==> i < j)
    ensures j < |t| ==> IsSpace(t[j])
    decreases |t| - i
  {
    if i < |t| && !IsSpace(t[i]) then WordRun(t, i + 1) else i
  }

  /** The ends of the matches of `\S+\s*` from a place on, each after the white space that follows its word. */
  function WordEnds(t: Text, i: nat): seq<nat>
    requires i <= |t|
    decreases |t| - i
  {
    var start := SpaceRun(t, i);
    if start == |t| then []
    else
      var end := SpaceRun(t, WordRun(t, start));
      [end] + WordEnds(t, end)
  }

  function Shift(ends: seq<nat>, offset: nat): (r: seq<nat>)
    ensures |r| == |ends|
  {
    seq(|ends|, i requires 0 <= i < |ends| => offset + ends[i])
  }

  predicate IsShown(slide: Slide, hidden: seq<bool>, i: nat)
    requires i < |slide.nodes|
  {
    slide.nodes[i].item.None? || slide.nodes[i].item.value >= |hidden| || !hidden[slide.nodes[i].item.value]
  }

  /** `textFlow`, of the first nodes: those shown that have a word in them. */
  function FlowOf(slide: Slide, hidden: seq<bool>, n: nat): Flow
    requires n <= |slide.nodes| == |slide.texts|
  {
    if n == 0 then Flow([], [], [])
    else
      var f := FlowOf(slide, hidden, n - 1);
      var ends := WordEnds(slide.texts[n - 1], 0);
      if !IsShown(slide, hidden, n - 1) || ends == [] then f
      else Flow(f.entries + [Entry(n - 1, slide.texts[n - 1], |f.whole|)], f.whole + slide.texts[n - 1],
                f.wordEnds + Shift(ends, |f.whole|))
  }

  /** What of an entry the text from `from` up to `to` has. */
  function Piece(e: Entry, from: nat, to: nat): Text {
    var start := if from > e.first then from - e.first else 0;
    var end := if to < e.first then 0 else if to - e.first < |e.text| then to - e.first else |e.text|;
    if start >= end then [] else e.text[start..end]
  }

  /** What its node shows: without the space it ends with, when more of it follows. */
  function ShownPiece(e: Entry, from: nat, to: nat): Text {
    if to < e.first + |e.text| then TrimEnd(Piece(e, from, to)) else Piece(e, from, to)
  }

  function DataOf(entries: seq<Entry>, data: seq<Text>, from: nat, to: nat): (r: seq<Text>)
    ensures |r| == |data|
  {
    if entries == [] then data
    else
      var before := DataOf(entries[..|entries| - 1], data, from, to);
      var e := entries[|entries| - 1];
      if e.node < |data| then before[e.node := ShownPiece(e, from, to)] else before
  }

  function Elements(slide: Slide, entries: seq<Entry>): set<nat> {
    set i, a | 0 <= i < |entries| && entries[i].node < |slide.nodes| && a in slide.nodes[entries[i].node].ancestors :: a
  }

  function Holding(slide: Slide, entries: seq<Entry>, from: nat, to: nat): set<nat> {
    set i, a | 0 <= i < |entries| && entries[i].node < |slide.nodes| && Piece(entries[i], from, to) != []
    && a in slide.nodes[entries[i].node].ancestors :: a
  }

  /**
   A view with a part of its text: the rest is taken out, and every element that holds none of it is marked elsewhere.
   */
  function TextView(slide: Slide, v: View, flow: Flow, from: nat, to: nat): View {
    var all := Elements(slide, flow.entries);
    v.(data := DataOf(flow.entries, v.data, from, to),
       elsewhere := (v.elsewhere - all) + (all - Holding(slide, flow.entries, from, to)))
  }

  // ---------- Pages of text ----------

  /** The ends of the characters of the whole text from `from` up to `to`. */
  function CharacterEnds(slide: Slide, flow: Flow, from: nat, to: nat): seq<nat>
    requires from <= to <= |flow.whole|
  {
    Shift(slide.segments(flow.whole[from..to]), from)
  }

  function EndFits(fits: (nat, nat) -> bool, start: nat, ends: seq<nat>): nat -> bool {
    (i: nat) => i < |ends| && fits(start, ends[i])
  }

  /** `furthest`. */
  function Furthest(fits: (nat, nat) -> bool, start: nat, ends: seq<nat>): (end: nat)
    requires ends != []
    ensures end in ends
  {
    ends[Search(EndFits(fits, start, ends), 0, |ends| - 1)]
  }

  /** What comes out was found to fit, unless it is the first. */
  lemma FurthestFits(fits: (nat, nat) -> bool, start: nat, ends: seq<nat>)
    requires ends != []
    ensures Furthest(fits, start, ends) == ends[0] || fits(start, Furthest(fits, start, ends))
  {
    SearchFits(EndFits(fits, start, ends), 0, |ends| - 1);
  }

  function Beyond(ends: seq<nat>, start: nat): seq<nat> {
    if ends == [] then []
    else if ends[0] > start then [ends[0]] + Beyond(ends[1..], start) else Beyond(ends[1..], start)
  }

  lemma {:induction false} AllBeyond(ends: seq<nat>, start: nat)
    requires forall i :: 0 <= i < |ends| ==> ends[i] > start
    ensures Beyond(ends, start) == ends
  {
    if ends != [] {
      AllBeyond(ends[1..], start);
    }
  }

  /** Of ends in order, those beyond a place are the last of them. */
  lemma {:induction false} BeyondIsRest(ends: seq<nat>, start: nat) returns (k: nat)
    requires Increasing(ends)
    ensures k <= |ends| && Beyond(ends, start) == ends[k..]
    ensures (forall i :: 0 <= i < k ==> ends[i] <= start) && (forall i :: k <= i < |ends| ==> ends[i] > start)
  {
    if ends == [] {
      k := 0;
    } else if ends[0] > start {
      k := 0;
      AllBeyond(ends, start);
    } else {
      var m := BeyondIsRest(ends[1..], start);
      k := m + 1;
      assert ends[1..][m..] == ends[k..];
      assert forall i :: k <= i < |ends| ==> ends[i] == ends[1..][i - 1];
      assert forall i :: 1 <= i < k ==> ends[i] == ends[1..][i - 1];
    }
  }

  /** The flow's word ends are in order, and the last is its end. */
  ghost predicate GoodFlow(flow: Flow) {
    && Increasing(flow.wordEnds) && (forall i :: 0 <= i < |flow.wordEnds| ==> 0 < flow.wordEnds[i] <= |flow.whole|)
    && (flow.whole != [] ==> flow.wordEnds != [] && flow.wordEnds[|flow.wordEnds| - 1] == |flow.whole|)
  }

  ghost predicate CanSplit(slide: Slide, flow: Flow) {
    GoodFlow(flow) && forall t :: GoodSegments(t, slide.segments(t))
  }

  /** The ends of words after a place. */
  lemma WordsBeyond(flow: Flow, start: nat)
    requires GoodFlow(flow) && start < |flow.whole|
    ensures var words := Beyond(flow.wordEnds, start);
            words != [] && Increasing(words) && forall e :: e in words ==> start < e <= |flow.whole|
  {
    var k := BeyondIsRest(flow.wordEnds, start);
    assert k < |flow.wordEnds| by {
      assert flow.wordEnds[|flow.wordEnds| - 1] > start;
    }
  }

  /** The ends of the characters of a stretch that is not empty. */
  lemma CharactersBeyond(slide: Slide, flow: Flow, from: nat, to: nat)
    requires CanSplit(slide, flow) && from < to <= |flow.whole|
    ensures var ends := CharacterEnds(slide, flow, from, to);
            ends != [] && forall e :: e in ends ==> from < e <= to
  {
    var t := flow.whole[from..to];
    assert GoodSegments(t, slide.segments(t));
  }

  /** The page of words that starts at a place, before a long word is broken. */
  function WordPage(flow: Flow, fits: (nat, nat) -> bool, start: nat): (end: nat)
    requires GoodFlow(flow) && start < |flow.whole|
    ensures start < end <= |flow.whole|
  {
    WordsBeyond(flow, start);
    Furthest(fits, start, Beyond(flow.wordEnds, start))
  }

  /** The word that ends at `end` is longer than a page: it is broken between two characters. */
  function BrokenWord(slide: Slide, flow: Flow, fits: (nat, nat) -> bool, start: nat, end: nat): (r: nat)
    requires CanSplit(slide, flow) && start < end <= |flow.whole|
    ensures start < r <= end
  {
    CharactersBeyond(slide, flow, start, end);
    Furthest(fits, start, CharacterEnds(slide, flow, start, end))
  }

  /** The word that does not fit is broken after the last of its characters that does. */
  function LongWordStarted(slide: Slide, flow: Flow, fits: (nat, nat) -> bool, start: nat, end: nat,
                           next: nat): (r: nat)
    requires CanSplit(slide, flow) && start < end < next <= |flow.whole|
    ensures end <= r <= next
  {
    CharactersBeyond(slide, flow, end, next);
    Furthest(fits, start, [end] + CharacterEnds(slide, flow, end, next))
  }

  /** The end of the next word, if there is one: `words.find` of the words from `start`. */
  function NextWord(flow: Flow, start: nat, end: nat): (next: Option<nat>)
    requires GoodFlow(flow) && start < end <= |flow.whole|
    ensures next.Some? ==> end < next.value <= |flow.whole|
  {
    WordsBeyond(flow, start);
    var later := Beyond(Beyond(flow.wordEnds, start), end);
    if later == [] then None
    else
      NextWordLater(flow, start, end);
      Some(later[0])
  }

  lemma NextWordLater(flow: Flow, start: nat, end: nat)
    requires GoodFlow(flow) && start < end <= |flow.whole| && Beyond(Beyond(flow.wordEnds, start), end) != []
    ensures end < Beyond(Beyond(flow.wordEnds, start), end)[0] <= |flow.whole|
  {
    WordsBeyond(flow, start);
    var words := Beyond(flow.wordEnds, start);
    var k := BeyondIsRest(words, end);
    assert words[k] in words;
  }

  /** Where a page of text that starts at `start` ends. */
  function PageEnd(slide: Slide, flow: Flow, fits: (nat, nat) -> bool, start: nat): (end: nat)
    requires CanSplit(slide, flow) && start < |flow.whole|
    ensures start < end <= |flow.whole|
  {
    var end := WordPage(flow, fits, start);
    if !fits(start, end) then BrokenWord(slide, flow, fits, start, end)
    else
      var next := NextWord(flow, start, end);
      if next.None? || fits(end, next.value) then end else LongWordStarted(slide, flow, fits, start, end, next.value)
  }

  /** `textPages` from a place on. */
  function TextPagesFrom(slide: Slide, flow: Flow, fits: (nat, nat) -> bool, start: nat): seq<Range>
    requires CanSplit(slide, flow) && start <= |flow.whole|
    decreases |flow.whole| - start
  {
    if start == |flow.whole| then []
    else
      [Range(start, PageEnd(slide, flow, fits, start))]
      + TextPagesFrom(slide, flow, fits, PageEnd(slide, flow, fits, start))
  }

  /** A page is exactly one character: the first of the word it breaks. */
  ghost predicate OneCharacter(slide: Slide, flow: Flow, r: Range) {
    exists end ::
      r.from < end <= |flow.whole| && slide.segments(flow.whole[r.from..end]) != []
      && r.to == r.from + slide.segments(flow.whole[r.from..end])[0]
  }

  lemma PageEndFits(slide: Slide, flow: Flow, fits: (nat, nat) -> bool, start: nat)
    requires CanSplit(slide, flow) && start < |flow.whole|
    ensures fits(start, PageEnd(slide, flow, fits, start))
            || OneCharacter(slide, flow, Range(start, PageEnd(slide, flow, fits, start)))
  {
    var end := WordPage(flow, fits, start);
    if !fits(start, end) {
      CharactersBeyond(slide, flow, start, end);
      FurthestFits(fits, start, CharacterEnds(slide, flow, start, end));
    } else {
      var next := NextWord(flow, start, end);
      if next.Some? {
        CharactersBeyond(slide, flow, end, next.value);
        FurthestFits(fits, start, [end] + CharacterEnds(slide, flow, end, next.value));
      }
    }
  }

  // ---------- Where a page of text ends ----------

  /** From `from` on to `to` is one word, or the rest of one: no word ends between. */
  ghost predicate RestOfWord(flow: Flow, from: nat, to: nat) {
    from < to && to in flow.wordEnds && forall w :: w in flow.wordEnds ==> w <= from || w >= to
  }

  /** A page begins or goes on with a word that no page from there on holds whole, and ends inside it. */
  ghost predicate InsideLongWord(flow: Flow, fits: (nat, nat) -> bool, start: nat, end: nat, from: nat, to: nat) {
    && start <= from <= end < to && (from == start || from in flow.wordEnds)
    && RestOfWord(flow, from, to) && !fits(from, to)
  }

  /** A page ends between two words, or inside a word that is longer than a page from where the word is begun on. */
  lemma PageEndsBetweenWords(slide: Slide, flow: Flow, fits: (nat, nat) -> bool, start: nat)
    requires CanSplit(slide, flow) && start < |flow.whole|
    ensures var end := PageEnd(slide, flow, fits, start);
            end in flow.wordEnds || exists from, to :: InsideLongWord(flow, fits, start, end, from, to)
  {
    hide Furthest, CharacterEnds;
    var page, end := WordPage(flow, fits, start), PageEnd(slide, flow, fits, start);
    FirstWordBeyond(flow, fits, start);
    if !fits(start, page) {
      if end < page {
        assert InsideLongWord(flow, fits, start, end, start, page);
      }
    } else {
      var next := NextWord(flow, start, page);
      if next.Some? && !fits(page, next.value) {
        NextWordIs(flow, start, page);
        if page < end < next.value {
          assert InsideLongWord(flow, fits, start, end, page, next.value);
        }
      }
    }
  }

  lemma BeyondAre(flow: Flow, start: nat)
    requires GoodFlow(flow)
    ensures Increasing(Beyond(flow.wordEnds, start))
    ensures forall w :: w in Beyond(flow.wordEnds, start) <==> w in flow.wordEnds && w > start
  {
    var k := BeyondIsRest(flow.wordEnds, start);
    var words := Beyond(flow.wordEnds, start);
    forall w | w in flow.wordEnds && w > start ensures w in words {
      var i :| 0 <= i < |flow.wordEnds| && flow.wordEnds[i] == w;
      assert words[i - k] == w;
    }
  }

  /** The page of words ends at a word's end, and when it does not fit it is one word. */
  lemma FirstWordBeyond(flow: Flow, fits: (nat, nat) -> bool, start: nat)
    requires GoodFlow(flow) && start < |flow.whole|
    ensures WordPage(flow, fits, start) in flow.wordEnds
    ensures !fits(start, WordPage(flow, fits, start)) ==> RestOfWord(flow, start, WordPage(flow, fits, start))
  {
    hide Furthest;
    WordsBeyond(flow, start);
    BeyondAre(flow, start);
    var words := Beyond(flow.wordEnds, start);
    FurthestFits(fits, start, words);
    FirstIsLeast(words);
  }

  lemma FirstIsLeast(ends: seq<nat>)
    requires Increasing(ends) && ends != []
    ensures forall e :: e in ends ==> ends[0] <= e
  {
  }

  lemma NextWordIs(flow: Flow, start: nat, end: nat)
    requires GoodFlow(flow) && start < end <= |flow.whole| && NextWord(flow, start, end).Some?
    ensures RestOfWord(flow, end, NextWord(flow, start, end).value)
  {
    WordsBeyond(flow, start);
    BeyondAre(flow, start);
    var words := Beyond(flow.wordEnds, start);
    var k := BeyondIsRest(words, end);
    var later := Beyond(words, end);
    assert later[0] == words[k];
    forall w | w in flow.wordEnds ensures w <= end || w >= later[0] {
      if w > end {
        assert w in words;
        var i :| 0 <= i < |words| && words[i] == w;
        assert i >= k;
      }
    }
  }

  /** What fits from a place on still fits with its end earlier. */
  ghost predicate EndsSooner(fits: (nat, nat) -> bool, start: nat, length: nat) {
    forall a: nat, b: nat :: start < a <= b <= length && fits(start, b) ==> fits(start, a)
  }

  lemma FurthestLast(fits: (nat, nat) -> bool, start: nat, ends: seq<nat>, length: nat, e: nat)
    requires Increasing(ends) && EndsSooner(fits, start, length)
             && (forall i :: 0 <= i < |ends| ==> start < ends[i] <= length)
    requires e in ends && Furthest(fits, start, ends) < e
    ensures !fits(start, e)
  {
    var furthest := Search(EndFits(fits, start, ends), 0, |ends| - 1);
    var n: nat :| n < |ends| && ends[n] == e;
    forall a: nat, b: nat | 0 <= a <= b <= |ends| - 1 && EndFits(fits, start, ends)(b)
      ensures EndFits(fits, start, ends)(a)
    {
      assert ends[a] <= ends[b];
    }
    forall i | 0 <= i <= furthest ensures ends[i] <= ends[furthest] {
    }
    SearchFurthest(EndFits(fits, start, ends), 0, |ends| - 1, n);
  }

  /** The page of words holds all the words that fit. */
  lemma WordPageLast(flow: Flow, fits: (nat, nat) -> bool, start: nat, w: nat)
    requires GoodFlow(flow) && start < |flow.whole| && EndsSooner(fits, start, |flow.whole|)
    requires w in flow.wordEnds && w > WordPage(flow, fits, start)
    ensures !fits(start, w)
  {
    hide Furthest;
    BeyondAre(flow, start);
    WordsBeyond(flow, start);
    var words := Beyond(flow.wordEnds, start);
    assert forall i :: 0 <= i < |words| ==> words[i] in words;
    FurthestLast(fits, start, words, |flow.whole|, w);
  }

  lemma CharactersInOrder(slide: Slide, flow: Flow, from: nat, to: nat)
    requires CanSplit(slide, flow) && from < to <= |flow.whole|
    ensures Increasing(CharacterEnds(slide, flow, from, to))
            && Increasing([from] + CharacterEnds(slide, flow, from, to))
    ensures forall i :: 0 <= i < |CharacterEnds(slide, flow, from, to)|
                        ==> from < CharacterEnds(slide, flow, from, to)[i] <= to
  {
    assert GoodSegments(flow.whole[from..to], slide.segments(flow.whole[from..to]));
  }

  /** Only one stretch is the rest of the word a place is in. */
  lemma OneRest(flow: Flow, start: nat, end: nat, a: nat, b: nat, from: nat, to: nat)
    requires RestOfWord(flow, a, b) && RestOfWord(flow, from, to) && start <= a <= end <= b && start <= from <= end < to
    requires (a == start || a in flow.wordEnds) && (from == start || from in flow.wordEnds)
    ensures (from == a && to == b) || from == b == end
  {
  }

  /** A page holds as much as fits: no further word, and none of the further characters of a word it breaks. */
  lemma PageEndFullest(slide: Slide, flow: Flow, fits: (nat, nat) -> bool, start: nat)
    requires CanSplit(slide, flow) && start < |flow.whole| && EndsSooner(fits, start, |flow.whole|)
    ensures var end := PageEnd(slide, flow, fits, start);
            && (forall w :: w in flow.wordEnds && w > end ==> !fits(start, w))
            && forall from: nat, to: nat, c: nat ::
                 InsideLongWord(flow, fits, start, end, from, to) && c > end
                 && c - from in slide.segments(flow.whole[from..to])
                 ==> !fits(start, c)
  {
    hide PageEnd, CharacterEnds, EndsSooner;
    var end := PageEnd(slide, flow, fits, start);
    forall w | w in flow.wordEnds && w > end ensures !fits(start, w) {
      NoFurtherWord(slide, flow, fits, start, w);
    }
    forall from: nat, to: nat, c: nat |
      InsideLongWord(flow, fits, start, end, from, to) && c > end && c - from in slide.segments(flow.whole[from..to])
      ensures !fits(start, c)
    {
      CharacterAt(slide, flow, from, to, c);
      NoFurtherCharacter(slide, flow, fits, start, from, to, c);
    }
  }

  lemma CharacterAt(slide: Slide, flow: Flow, from: nat, to: nat, c: nat)
    requires from <= c && from <= to <= |flow.whole| && c - from in slide.segments(flow.whole[from..to])
    ensures c in CharacterEnds(slide, flow, from, to)
  {
    var ends := slide.segments(flow.whole[from..to]);
    var i :| 0 <= i < |ends| && ends[i] == c - from;
    assert CharacterEnds(slide, flow, from, to)[i] == c;
  }

  lemma NoFurtherWord(slide: Slide, flow: Flow, fits: (nat, nat) -> bool, start: nat, w: nat)
    requires CanSplit(slide, flow) && start < |flow.whole| && EndsSooner(fits, start, |flow.whole|)
    requires w in flow.wordEnds && w > PageEnd(slide, flow, fits, start)
    ensures !fits(start, w)
  {
    hide WordPage, CharacterEnds;
    FirstWordBeyond(flow, fits, start);
    var page := WordPage(flow, fits, start);
    if w > page {
      WordPageLast(flow, fits, start, w);
    }
  }

  lemma NoFurtherCharacter(slide: Slide, flow: Flow, fits: (nat, nat) -> bool, start: nat, from: nat, to: nat, c: nat)
    requires CanSplit(slide, flow) && start < |flow.whole| && EndsSooner(fits, start, |flow.whole|)
    requires InsideLongWord(flow, fits, start, PageEnd(slide, flow, fits, start), from, to)
    requires to <= |flow.whole| && c in CharacterEnds(slide, flow, from, to) && c > PageEnd(slide, flow, fits, start)
    ensures !fits(start, c)
  {
    hide WordPage, CharacterEnds, NextWord, Furthest;
    var page, end := WordPage(flow, fits, start), PageEnd(slide, flow, fits, start);
    FirstWordBeyond(flow, fits, start);
    CharactersInOrder(slide, flow, from, to);
    if !fits(start, page) {
      OneRest(flow, start, end, start, page, from, to);
      if from == start {
        FurthestLast(fits, start, CharacterEnds(slide, flow, start, page), |flow.whole|, c);
      }
    } else {
      AfterPage(slide, flow, fits, start, from, to);
      FurthestLast(fits, start, [page] + CharacterEnds(slide, flow, page, to), |flow.whole|, c);
    }
  }

  /** A page of words that fits and is not the end of the text begins no word but the next, and only a long one. */
  lemma AfterPage(slide: Slide, flow: Flow, fits: (nat, nat) -> bool, start: nat, from: nat, to: nat)
    requires CanSplit(slide, flow) && start < |flow.whole| && EndsSooner(fits, start, |flow.whole|)
    requires fits(start, WordPage(flow, fits, start))
    requires InsideLongWord(flow, fits, start, PageEnd(slide, flow, fits, start), from, to)
    ensures from == WordPage(flow, fits, start) < to <= |flow.whole|
    ensures PageEnd(slide, flow, fits, start) == LongWordStarted(slide, flow, fits, start, from, to)
  {
    hide WordPage, CharacterEnds, NextWord, Furthest;
    var page, end := WordPage(flow, fits, start), PageEnd(slide, flow, fits, start);
    FirstWordBeyond(flow, fits, start);
    var next := NextWord(flow, start, page);
    NextWordNone(flow, start, page);
    assert next.Some?;
    NextWordIs(flow, start, page);
    OneRest(flow, start, end, page, next.value, from, to);
    if end == next.value {
      CharactersBeyond(slide, flow, page, next.value);
      FurthestFits(fits, start, [page] + CharacterEnds(slide, flow, page, next.value));
      WordPageLast(flow, fits, start, next.value);
    }
  }

  lemma NextWordNone(flow: Flow, start: nat, end: nat)
    requires GoodFlow(flow) && start < end <= |flow.whole|
    ensures NextWord(flow, start, end).None? ==> forall w :: w in flow.wordEnds ==> w <= end
  {
    WordsBeyond(flow, start);
    BeyondAre(flow, start);
    var words := Beyond(flow.wordEnds, start);
    var k := BeyondIsRest(words, end);
    if NextWord(flow, start, end).None? {
      forall w | w in words ensures w <= end {
        var i :| 0 <= i < |words| && words[i] == w;
        assert i < k;
      }
    }
  }

  ghost predicate EachTextFits(slide: Slide, flow: Flow, fits: (nat, nat) -> bool, pages: seq<Range>) {
    forall i :: 0 <= i < |pages| ==> fits(pages[i].from, pages[i].to) || OneCharacter(slide, flow, pages[i])
  }

  /** Each page ends where the page that starts with it does. */
  ghost predicate EachEnded(slide: Slide, flow: Flow, fits: (nat, nat) -> bool, pages: seq<Range>)
    requires CanSplit(slide, flow)
  {
    forall i ::
      0 <= i < |pages| ==> pages[i].from < |flow.whole| && pages[i].to == PageEnd(slide, flow, fits, pages[i].from)
  }

  /**
   The pages cut the whole text into consecutive parts that are not empty, each of which fits or is exactly one
   character.
   */
  lemma {:induction false} TextPagesCut(slide: Slide, flow: Flow, fits: (nat, nat) -> bool, start: nat)
    requires CanSplit(slide, flow) && start <= |flow.whole|
    ensures Cuts(TextPagesFrom(slide, flow, fits, start), start, |flow.whole|)
    ensures EachTextFits(slide, flow, fits, TextPagesFrom(slide, flow, fits, start))
    ensures EachEnded(slide, flow, fits, TextPagesFrom(slide, flow, fits, start))
    decreases |flow.whole| - start
  {
    hide PageEnd, CanSplit, OneCharacter;
    if start < |flow.whole| {
      var end := PageEnd(slide, flow, fits, start);
      PageEndFits(slide, flow, fits, start);
      TextPagesCut(slide, flow, fits, end);
      CutsMore(Range(start, end), TextPagesFrom(slide, flow, fits, end), |flow.whole|);
    }
  }

  // ---------- The flow of a slide ----------

  /** The words of a text that has one end in order, within it, the last at its end. */
  lemma {:induction false} WordEndsGood(t: Text, i: nat)
    requires i <= |t|
    ensures Increasing(WordEnds(t, i)) && forall k :: 0 <= k < |WordEnds(t, i)| ==> i < WordEnds(t, i)[k] <= |t|
    ensures WordEnds(t, i) != [] ==> WordEnds(t, i)[|WordEnds(t, i)| - 1] == |t|
    ensures WordEnds(t, i) == [] <==> Blank(t[i..])
    decreases |t| - i
  {
    var start := SpaceRun(t, i);
    if start < |t| {
      var end := SpaceRun(t, WordRun(t, start));
      WordEndsGood(t, end);
      assert !IsSpace(t[i..][start - i]);
      assert end < |t| ==> !IsSpace(t[end..][0]);
    }
  }

  /** A place where a page may end: after a word and the white space that follows it. */
  ghost predicate EndsWord(t: Text, e: nat) {
    0 < e <= |t| && !Blank(t[..e]) && (e == |t| || (IsSpace(t[e - 1]) && !IsSpace(t[e])))
  }

  /** The ends are exactly those places. */
  lemma {:induction false} WordEndsAre(t: Text, i: nat, e: nat)
    requires i <= |t|
    ensures e in WordEnds(t, i)
            <==> i < e <= |t| && !Blank(t[i..e]) && (e == |t| || (IsSpace(t[e - 1]) && !IsSpace(t[e])))
    decreases |t| - i
  {
    hide IsSpace, Blank;
    var start := SpaceRun(t, i);
    if start == |t| {
      if i < e <= |t| {
        BlankAll(t, i, e);
      }
    } else {
      var word := WordRun(t, start);
      var end := SpaceRun(t, word);
      WordEndsAre(t, end, e);
      WordEndsGood(t, end);
      WordRunIs(t, start);
      if start < e <= |t| {
        NotBlankAt(t, i, start, e);
      } else if i < e <= start {
        BlankAll(t, i, e);
      }
      if end < e <= |t| {
        NotBlankAt(t, end, end, e);
      }
    }
  }

  lemma BlankAll(t: Text, i: nat, e: nat)
    requires i <= e <= |t| && forall k :: i <= k < e ==> IsSpace(t[k])
    ensures Blank(t[i..e])
  {
  }

  lemma NotBlankAt(t: Text, i: nat, k: nat, e: nat)
    requires i <= k < e <= |t| && !IsSpace(t[k])
    ensures !Blank(t[i..e])
  {
    assert t[i..e][k - i] == t[k];
  }

  lemma {:induction false} WordRunIs(t: Text, i: nat)
    requires i <= |t|
    ensures forall k :: i <= k < WordRun(t, i) ==> !IsSpace(t[k])
    decreases |t| - i
  {
    if i < |t| && !IsSpace(t[i]) {
      WordRunIs(t, i + 1);
    }
  }

  /** The flow's word ends are those of its texts, where they lie in the whole. */
  lemma {:induction false} FlowWordEnds(slide: Slide, hidden: seq<bool>, n: nat, w: nat)
    requires n <= |slide.nodes| == |slide.texts|
    ensures var f := FlowOf(slide, hidden, n);
            w in f.wordEnds
            <==> exists i :: 0 <= i < |f.entries| && w >= f.entries[i].first
                             && EndsWord(f.entries[i].text, w - f.entries[i].first)
  {
    hide IsShown, WordEnds, EndsWord;
    if n > 0 {
      FlowWordEnds(slide, hidden, n - 1, w);
      var before, f, t := FlowOf(slide, hidden, n - 1), FlowOf(slide, hidden, n), slide.texts[n - 1];
      if w >= |before.whole| {
        TextWordEnds(t, w - |before.whole|);
      }
      if IsShown(slide, hidden, n - 1) && WordEnds(t, 0) != [] {
        ShiftedHas(WordEnds(t, 0), |before.whole|, w);
        assert forall i :: 0 <= i < |before.entries| ==> f.entries[i] == before.entries[i];
        assert f.entries[|before.entries|] == Entry(n - 1, t, |before.whole|);
      }
    }
  }

  lemma TextWordEnds(t: Text, e: nat)
    ensures e in WordEnds(t, 0) <==> EndsWord(t, e)
  {
    WordEndsAre(t, 0, e);
    if e <= |t| {
      assert t[0..e] == t[..e];
    }
  }

  lemma ShiftedHas(ends: seq<nat>, offset: nat, w: nat)
    ensures w in Shift(ends, offset) <==> w >= offset && w - offset in ends
  {
    if w >= offset && w - offset in ends {
      var i :| 0 <= i < |ends| && ends[i] == w - offset;
      assert Shift(ends, offset)[i] == w;
    }
  }

  lemma {:induction false} FlowGood(slide: Slide, hidden: seq<bool>, n: nat)
    requires n <= |slide.nodes| == |slide.texts|
    ensures GoodFlow(FlowOf(slide, hidden, n))
  {
    hide WordEnds, IsShown;
    if n > 0 {
      FlowGood(slide, hidden, n - 1);
      WordEndsGood(slide.texts[n - 1], 0);
      GoodFlowMore(FlowOf(slide, hidden, n - 1), slide.texts[n - 1], WordEnds(slide.texts[n - 1], 0));
    }
  }

  lemma GoodFlowMore(f: Flow, t: Text, ends: seq<nat>)
    requires GoodFlow(f) && Increasing(ends) && forall k :: 0 <= k < |ends| ==> 0 < ends[k] <= |t|
    requires ends != [] ==> ends[|ends| - 1] == |t|
    ensures ends != [] ==> GoodFlow(Flow(f.entries, f.whole + t, f.wordEnds + Shift(ends, |f.whole|)))
  {
    var all := f.wordEnds + Shift(ends, |f.whole|);
    forall i, j | 0 <= i < j < |all| ensures all[i] < all[j] {
      if i < |f.wordEnds| <= j {
        assert all[i] <= |f.whole| < all[j];
      }
    }
  }

  // ---------- Nothing is lost ----------

  /** A text without its white space. */
  function Solid(t: Text): Text {
    if t == [] then [] else if IsSpace(t[0]) then Solid(t[1..]) else [t[0]] + Solid(t[1..])
  }

  lemma {:induction false} SolidAppend(a: Text, b: Text)
    ensures Solid(a + b) == Solid(a) + Solid(b)
  {
    hide IsSpace, Solid;
    if a == [] {
      SolidNothing();
      assert a + b == b;
    } else {
      SolidAppend(a[1..], b);
      assert (a + b)[0] == a[0] && (a + b)[1..] == a[1..] + b;
      SolidFirst(a);
      SolidFirst(a + b);
    }
  }

  lemma SolidNothing()
    ensures Solid([]) == []
  {
  }

  lemma SolidFirst(t: Text)
    requires t != []
    ensures Solid(t) == (if IsSpace(t[0]) then [] else [t[0]]) + Solid(t[1..])
  {
  }

  lemma {:induction false} SolidBlank(t: Text)
    requires Blank(t)
    ensures Solid(t) == []
  {
    if t != [] {
      SolidBlank(t[1..]);
    }
  }

  lemma SolidTrimmed(t: Text)
    ensures Solid(TrimEnd(t)) == Solid(t)
  {
    TrimEndIsPrefix(t);
    var n := |TrimEnd(t)|;
    assert t == TrimEnd(t) + t[n..];
    SolidAppend(TrimEnd(t), t[n..]);
    SolidBlank(t[n..]);
  }

  /** What the pages show of an entry, one after another. */
  function Joined(e: Entry, pages: seq<Range>): Text {
    if pages == [] then [] else ShownPiece(e, pages[0].from, pages[0].to) + Joined(e, pages[1..])
  }

  /** What of an entry lies from a place on. */
  function RestOf(e: Entry, from: nat): Text {
    if from <= e.first then e.text else if from - e.first >= |e.text| then [] else e.text[from - e.first..]
  }

  lemma PieceThenRest(e: Entry, from: nat, to: nat)
    requires from < to
    ensures RestOf(e, from) == Piece(e, from, to) + RestOf(e, to)
  {
  }

  lemma {:induction false} PiecesJoin(e: Entry, pages: seq<Range>, from: nat, to: nat)
    requires Cuts(pages, from, to) && e.first + |e.text| <= to
    ensures Solid(Joined(e, pages)) == Solid(RestOf(e, from))
  {
    hide Solid, TrimEnd, IsSpace;
    if pages == [] {
      assert RestOf(e, from) == [];
    } else {
      var p := pages[0];
      PiecesJoin(e, pages[1..], p.to, to);
      SolidAppend(ShownPiece(e, p.from, p.to), Joined(e, pages[1..]));
      SolidTrimmed(Piece(e, p.from, p.to));
      PieceThenRest(e, p.from, p.to);
      SolidAppend(Piece(e, p.from, p.to), RestOf(e, p.to));
    }
  }

  // ---------- All the pages of a slide ----------

  function ItemsFit(slide: Slide, unit: int): (nat, nat) -> bool {
    (from: nat, to: nat) => Fits(slide, unit, ItemView(slide, from, to, None))
  }

  /** `shrink`, with a size set and the next to try. */
  function ShrinkFrom(slide: Slide, unit: int, from: nat, to: nat, before: Option<int>, scale: nat): Option<int>
    decreases scale
  {
    if Fits(slide, unit, ItemView(slide, from, to, before)) || 2 * scale < 2 * MIN_SCALE - SCALE_STEP then before
    else ShrinkFrom(slide, unit, from, to, Some(scale), scale - SCALE_STEP)
  }

  function Shrunk(slide: Slide, unit: int, from: nat, to: nat): Option<int> {
    ShrinkFrom(slide, unit, from, to, None, 100 - SCALE_STEP)
  }

  function FlowAt(slide: Slide, from: nat, to: nat): Flow
    requires |slide.texts| == |slide.nodes|
  {
    FlowOf(slide, Hidden(slide.items, from, to), |slide.nodes|)
  }

  function TextFits(slide: Slide, unit: int, base: View, flow: Flow): (nat, nat) -> bool {
    (from: nat, to: nat) => Fits(slide, unit, TextView(slide, base, flow, from, to))
  }

  function TextPages(slide: Slide, unit: int, base: View, flow: Flow): seq<Range>
    requires CanSplit(slide, flow)
  {
    TextPagesFrom(slide, flow, TextFits(slide, unit, base, flow), 0)
  }

  function PageFor(r: Range, scale: Option<int>, text: Range): Page {
    Page(r.from, r.to, scale, Some(text))
  }

  /** A range of items becomes one page when some size fits, and a page for each part of its text when none does. */
  function PagesOfRange(slide: Slide, unit: int, r: Range): seq<Page>
    requires ValidSlide(slide)
  {
    var scale := Shrunk(slide, unit, r.from, r.to);
    var base := ItemView(slide, r.from, r.to, scale);
    if Fits(slide, unit, base) then [Page(r.from, r.to, scale, None)]
    else
      var flow := FlowAt(slide, r.from, r.to);
      FlowGood(slide, Hidden(slide.items, r.from, r.to), |slide.nodes|);
      var parts := TextPages(slide, unit, base, flow);
      if parts == [] then [Page(r.from, r.to, scale, None)]
      else seq(|parts|, i requires 0 <= i < |parts| => PageFor(r, scale, parts[i]))
  }

  function PagesOfRanges(slide: Slide, unit: int, ranges: seq<Range>): seq<Page>
    requires ValidSlide(slide)
  {
    if ranges == [] then []
    else PagesOfRanges(slide, unit, ranges[..|ranges| - 1]) + PagesOfRange(slide, unit, ranges[|ranges| - 1])
  }

  function AllPages(slide: Slide, unit: int): seq<Page>
    requires ValidSlide(slide)
  {
    PagesOfRanges(slide, unit, ItemPages(ItemsFit(slide, unit), slide.items))
  }

  /** What a page looks like. */
  function PageView(slide: Slide, page: Page): View
    requires |slide.texts| == |slide.nodes|
  {
    var base := ItemView(slide, page.from, page.to, page.scale);
    if page.text.None? then base
    else TextView(slide, base, FlowAt(slide, page.from, page.to), page.text.value.from, page.text.value.to)
  }

  function Clamp(page: int, pages: nat): nat
    requires pages > 0
  {
    if page < 0 then 0 else if page > pages - 1 then pages - 1 else page
  }

  /** What `fitSlide` hands back, and what it leaves on screen. */
  function Fitted(slide: Slide, unit: int, page: int): (SlideFit, View)
    requires ValidSlide(slide)
  {
    if unit <= 0 || Fits(slide, unit, Pristine(slide)) then (SlideFit(0, 1, true), Pristine(slide))
    else
      var pages := AllPages(slide, unit);
      AllPagesSome(slide, unit);
      var shown := Clamp(page, |pages|);
      var view := PageView(slide, pages[shown]);
      (SlideFit(shown, |pages|, Fits(slide, unit, view)), view)
  }

  lemma AllPagesSome(slide: Slide, unit: int)
    requires ValidSlide(slide)
    ensures AllPages(slide, unit) != []
  {
    hide PagesOfRange;
    var ranges := ItemPages(ItemsFit(slide, unit), slide.items);
    RangeHasPage(slide, unit, ranges[|ranges| - 1]);
  }

  lemma RangeHasPage(slide: Slide, unit: int, r: Range)
    requires ValidSlide(slide)
    ensures PagesOfRange(slide, unit, r) != []
  {
    hide TextPages, ItemView, Shrunk, FlowAt;
  }

  /** The page shown is one there is, and a slide that is said to fit without pages is shown as it is. */
  lemma PageInRange(slide: Slide, unit: int, page: int)
    requires ValidSlide(slide)
    ensures Fitted(slide, unit, page).0.page < Fitted(slide, unit, page).0.pages
    ensures 0 <= page < Fitted(slide, unit, page).0.pages ==> Fitted(slide, unit, page).0.page == page
    ensures page >= Fitted(slide, unit, page).0.pages
            ==> Fitted(slide, unit, page).0.page == Fitted(slide, unit, page).0.pages - 1
    ensures page < 0 ==> Fitted(slide, unit, page).0.page == 0
    ensures unit <= 0 || Fits(slide, unit, Pristine(slide))
            ==> Fitted(slide, unit, page).0.pages == 1 && Fitted(slide, unit, page).1 == Pristine(slide)
    ensures Fitted(slide, unit, page).0.fits <==> unit <= 0 || Fits(slide, unit, Fitted(slide, unit, page).1)
  {
    hide AllPages, PageView, Fits;
    AllPagesSome(slide, unit);
  }

  /** The size set is the largest that fits, by steps of 5 percent down to 60, and 60 when none does. */
  lemma {:induction false} ShrinkMeaning(slide: Slide, unit: int, from: nat, to: nat, before: Option<int>, scale: nat)
    requires scale <= 95 && scale % SCALE_STEP == 0 && scale >= MIN_SCALE - SCALE_STEP
    requires before == if scale == 95 then None else Some(scale + SCALE_STEP)
    ensures var r := ShrinkFrom(slide, unit, from, to, before, scale);
            && (Fits(slide, unit, ItemView(slide, from, to, r)) || r == Some(MIN_SCALE))
            && (r.Some? ==> r.value % SCALE_STEP == 0 && MIN_SCALE <= r.value <= 95)
            && (r != before ==> !Fits(slide, unit, ItemView(slide, from, to, before)))
            && forall k ::
                 r.Some? && r.value < k <= scale && k % SCALE_STEP == 0
                 ==> !Fits(slide, unit, ItemView(slide, from, to, Some(k)))
    decreases scale
  {
    hide Fits, ItemView;
    if !Fits(slide, unit, ItemView(slide, from, to, before)) && 2 * scale >= 2 * MIN_SCALE - SCALE_STEP {
      ShrinkMeaning(slide, unit, from, to, Some(scale), scale - SCALE_STEP);
    }
  }

  /** Each page was measured to fit, or is one character of its text, or has no text to be split. */
  ghost predicate PageMeasured(slide: Slide, unit: int, page: Page)
    requires ValidSlide(slide)
  {
    var flow := FlowAt(slide, page.from, page.to);
    || Fits(slide, unit, PageView(slide, page))
    || (page.text.Some? && OneCharacter(slide, flow, page.text.value))
    || (page.text.None? && flow.whole == [])
  }

  lemma RangeMeasured(slide: Slide, unit: int, r: Range, i: nat)
    requires ValidSlide(slide) && i < |PagesOfRange(slide, unit, r)|
    ensures PageMeasured(slide, unit, PagesOfRange(slide, unit, r)[i])
  {
    hide TextPagesFrom, TextView, ItemView, Shrunk, FlowAt, OneCharacter, GoodFlow;
    var scale := Shrunk(slide, unit, r.from, r.to);
    var base := ItemView(slide, r.from, r.to, scale);
    var flow := FlowAt(slide, r.from, r.to);
    FlowAtGood(slide, r.from, r.to);
    var fits := TextFits(slide, unit, base, flow);
    TextPagesCut(slide, flow, fits, 0);
    var parts := TextPages(slide, unit, base, flow);
    if !Fits(slide, unit, base) && parts != [] {
      var page := PagesOfRange(slide, unit, r)[i];
      assert page == PageFor(r, scale, parts[i]);
      assert fits(parts[i].from, parts[i].to) ==> Fits(slide, unit, PageView(slide, page));
    }
  }

  lemma FlowAtGood(slide: Slide, from: nat, to: nat)
    requires ValidSlide(slide)
    ensures CanSplit(slide, FlowAt(slide, from, to))
  {
    hide FlowOf;
    FlowGood(slide, Hidden(slide.items, from, to), |slide.nodes|);
  }

  lemma {:induction false} RangesMeasured(slide: Slide, unit: int, ranges: seq<Range>)
    requires ValidSlide(slide)
    ensures forall i ::
              0 <= i < |PagesOfRanges(slide, unit, ranges)|
              ==> PageMeasured(slide, unit, PagesOfRanges(slide, unit, ranges)[i])
  {
    hide PagesOfRange, PageMeasured, ValidSlide;
    if ranges != [] {
      var front, last := ranges[..|ranges| - 1], ranges[|ranges| - 1];
      RangesMeasured(slide, unit, front);
      forall i | 0 <= i < |PagesOfRange(slide, unit, last)|
        ensures PageMeasured(slide, unit, PagesOfRange(slide, unit, last)[i])
      {
        RangeMeasured(slide, unit, last, i);
      }
    }
  }

  /**
   What is left on screen is the page whose number is handed back, in the state it was measured in: it fits unless it is
   a single character of a text, or has no text to be split.
   */
  lemma ShownAsMeasured(slide: Slide, unit: int, page: int)
    requires ValidSlide(slide) && unit > 0 && !Fits(slide, unit, Pristine(slide))
    ensures var pages, fit := AllPages(slide, unit), Fitted(slide, unit, page).0;
            && fit.page < fit.pages == |pages| && Fitted(slide, unit, page).1 == PageView(slide, pages[fit.page])
            && PageMeasured(slide, unit, pages[fit.page])
  {
    hide PagesOfRanges, PageMeasured, Fits, PageView;
    AllPagesSome(slide, unit);
    RangesMeasured(slide, unit, ItemPages(ItemsFit(slide, unit), slide.items));
  }

  // ---------- When a page is said not to fit ----------

  /** The items show no word. */
  predicate NoWords(slide: Slide, from: nat, to: nat)
    requires |slide.texts| == |slide.nodes|
  {
    FlowAt(slide, from, to).whole == []
  }

  /** The items fit neither at their own size nor at any that `shrink` tries. */
  ghost predicate NoSizeFits(slide: Slide, unit: int, from: nat, to: nat) {
    && !Fits(slide, unit, ItemView(slide, from, to, None))
    && forall k ::
         MIN_SCALE <= k <= 95 && k % SCALE_STEP == 0 ==> !Fits(slide, unit, ItemView(slide, from, to, Some(k)))
  }

  lemma ShrunkFitsIff(slide: Slide, unit: int, from: nat, to: nat)
    ensures Fits(slide, unit, ItemView(slide, from, to, Shrunk(slide, unit, from, to)))
            <==> !NoSizeFits(slide, unit, from, to)
    ensures NoSizeFits(slide, unit, from, to) ==> Shrunk(slide, unit, from, to) == Some(MIN_SCALE)
  {
    hide Fits, ItemView;
    ShrinkMeaning(slide, unit, from, to, None, 95);
  }

  /**
   A page is of the size its items were shrunk to, and is not split only when that fits or there is no word to split at.
   */
  ghost predicate PageShaped(slide: Slide, unit: int, page: Page)
    requires ValidSlide(slide)
  {
    && page.scale == Shrunk(slide, unit, page.from, page.to)
    && (page.text.None? <==> !NoSizeFits(slide, unit, page.from, page.to) || NoWords(slide, page.from, page.to))
  }

  lemma RangeShaped(slide: Slide, unit: int, r: Range, i: nat)
    requires ValidSlide(slide) && i < |PagesOfRange(slide, unit, r)|
    ensures PageShaped(slide, unit, PagesOfRange(slide, unit, r)[i])
  {
    hide TextView, ItemView, Shrunk, FlowAt, NoSizeFits, Fits, GoodFlow;
    ShrunkFitsIff(slide, unit, r.from, r.to);
    FlowAtGood(slide, r.from, r.to);
  }

  lemma {:induction false} RangesShaped(slide: Slide, unit: int, ranges: seq<Range>)
    requires ValidSlide(slide)
    ensures forall i ::
              0 <= i < |PagesOfRanges(slide, unit, ranges)|
              ==> PageShaped(slide, unit, PagesOfRanges(slide, unit, ranges)[i])
  {
    hide PagesOfRange, PageShaped, ValidSlide;
    if ranges != [] {
      var front, last := ranges[..|ranges| - 1], ranges[|ranges| - 1];
      RangesShaped(slide, unit, front);
      forall i | 0 <= i < |PagesOfRange(slide, unit, last)|
        ensures PageShaped(slide, unit, PagesOfRange(slide, unit, last)[i])
      {
        RangeShaped(slide, unit, last, i);
      }
    }
  }

  /** A single character of a text, at the smallest size. */
  ghost predicate SmallestCharacter(slide: Slide, page: Page)
    requires ValidSlide(slide)
  {
    page.text.Some? && OneCharacter(slide, FlowAt(slide, page.from, page.to), page.text.value)
    && page.scale == Some(MIN_SCALE)
  }

  /**
   A page said not to fit is a single character at the smallest size, as documented, exactly when its items show a word
   or fit at some size.
   */
  lemma FitsClaimIff(slide: Slide, unit: int, page: int)
    requires ValidSlide(slide) && unit > 0 && !Fits(slide, unit, Pristine(slide))
    ensures var fit := Fitted(slide, unit, page).0;
            && fit.page < |AllPages(slide, unit)|
            && var p := AllPages(slide, unit)[fit.page];
               (!fit.fits ==> SmallestCharacter(slide, p))
               <==> !(NoWords(slide, p.from, p.to) && NoSizeFits(slide, unit, p.from, p.to))
  {
    hide Fits, AllPages, FlowAt, NoSizeFits, PageView, OneCharacter, Shrunk;
    ShownAsMeasured(slide, unit, page);
    AllShaped(slide, unit);
    var p := AllPages(slide, unit)[Fitted(slide, unit, page).0.page];
    ShrunkFitsIff(slide, unit, p.from, p.to);
    WholeView(slide, p);
  }

  lemma WholeView(slide: Slide, page: Page)
    requires |slide.texts| == |slide.nodes|
    ensures page.text.None? ==> PageView(slide, page) == ItemView(slide, page.from, page.to, page.scale)
  {
  }

  /** A page of text ends where a page of its items, at its size, that starts with it does. */
  ghost predicate PageEnded(slide: Slide, unit: int, page: Page)
    requires ValidSlide(slide)
  {
    page.text.Some? ==>
      var flow := FlowAt(slide, page.from, page.to);
      && CanSplit(slide, flow) && page.text.value.from < |flow.whole|
      && page.text.value.to
         == PageEnd(slide, flow, TextFits(slide, unit, ItemView(slide, page.from, page.to, page.scale), flow),
                    page.text.value.from)
  }

  lemma RangeEnded(slide: Slide, unit: int, r: Range, i: nat)
    requires ValidSlide(slide) && i < |PagesOfRange(slide, unit, r)|
    ensures PageEnded(slide, unit, PagesOfRange(slide, unit, r)[i])
  {
    hide TextPagesFrom, TextView, ItemView, Shrunk, FlowAt, OneCharacter, GoodFlow, PageEnd, GoodSegments;
    var scale := Shrunk(slide, unit, r.from, r.to);
    var base := ItemView(slide, r.from, r.to, scale);
    var flow := FlowAt(slide, r.from, r.to);
    FlowAtGood(slide, r.from, r.to);
    TextPagesCut(slide, flow, TextFits(slide, unit, base, flow), 0);
    var parts := TextPages(slide, unit, base, flow);
    if !Fits(slide, unit, base) && parts != [] {
      assert PagesOfRange(slide, unit, r)[i] == PageFor(r, scale, parts[i]);
    }
  }

  lemma {:induction false} RangesEnded(slide: Slide, unit: int, ranges: seq<Range>)
    requires ValidSlide(slide)
    ensures forall i ::
              0 <= i < |PagesOfRanges(slide, unit, ranges)|
              ==> PageEnded(slide, unit, PagesOfRanges(slide, unit, ranges)[i])
  {
    hide PagesOfRange, PageEnded, ValidSlide;
    if ranges != [] {
      var front, last := ranges[..|ranges| - 1], ranges[|ranges| - 1];
      RangesEnded(slide, unit, front);
      forall i | 0 <= i < |PagesOfRange(slide, unit, last)|
        ensures PageEnded(slide, unit, PagesOfRange(slide, unit, last)[i])
      {
        RangeEnded(slide, unit, last, i);
      }
    }
  }

  /** The text pages of a slide hold as much as fits: with any further word a page would not. */
  lemma PageFullest(slide: Slide, unit: int, i: nat, w: nat)
    requires ValidSlide(slide) && i < |AllPages(slide, unit)| && AllPages(slide, unit)[i].text.Some?
    requires var page := AllPages(slide, unit)[i];
             var flow := FlowAt(slide, page.from, page.to);
             && w in flow.wordEnds && w > page.text.value.to
             && EndsSooner(TextFits(slide, unit, ItemView(slide, page.from, page.to, page.scale), flow),
                           page.text.value.from, |flow.whole|)
    ensures var page := AllPages(slide, unit)[i];
            !Fits(slide, unit, PageView(slide, page.(text := Some(Range(page.text.value.from, w)))))
  {
    hide PagesOfRanges, TextView, ItemView, FlowAt, PageEnd, CanSplit, EndsSooner;
    RangesEnded(slide, unit, ItemPages(ItemsFit(slide, unit), slide.items));
    var page := AllPages(slide, unit)[i];
    var flow := FlowAt(slide, page.from, page.to);
    var fits := TextFits(slide, unit, ItemView(slide, page.from, page.to, page.scale), flow);
    assert PageEnded(slide, unit, page);
    NoFurtherWord(slide, flow, fits, page.text.value.from, w);
    assert !fits(page.text.value.from, w);
  }

  lemma AllShaped(slide: Slide, unit: int)
    requires ValidSlide(slide)
    ensures forall i :: 0 <= i < |AllPages(slide, unit)| ==> PageShaped(slide, unit, AllPages(slide, unit)[i])
  {
    hide PageShaped, PagesOfRanges;
    RangesShaped(slide, unit, ItemPages(ItemsFit(slide, unit), slide.items));
  }

  /** A slide of no words that is always too tall, as a picture without a caption may be. */
  const TOO_TALL := Slide(0, [], [], (unit: int, view: View) => true, (t: Text) => if t == [] then [] else [|t|])

  /** It is said not to fit, and there is no character on it. */
  lemma WordlessTooTall(unit: int)
    requires unit > 0
    ensures ValidSlide(TOO_TALL) && Fitted(TOO_TALL, unit, 0).0 == SlideFit(0, 1, false)
    ensures |AllPages(TOO_TALL, unit)| == 1 && AllPages(TOO_TALL, unit)[0].text.None?
  {
    hide Shrunk, PagesOfRange, NoWords, NoSizeFits;
    NeverFits(unit);
    WordlessRange(TOO_TALL, unit, Range(0, 0));
    OneRange(TOO_TALL, unit);
    ShownAsMeasured(TOO_TALL, unit, 0);
    PageInRange(TOO_TALL, unit, 0);
  }

  lemma OneRange(slide: Slide, unit: int)
    requires ValidSlide(slide) && slide.items <= 1
    ensures AllPages(slide, unit) == PagesOfRange(slide, unit, Range(0, slide.items))
  {
    hide PagesOfRange;
    var ranges := [Range(0, slide.items)];
    assert ItemPages(ItemsFit(slide, unit), slide.items) == ranges;
    assert ranges[..|ranges| - 1] == [];
    assert PagesOfRanges(slide, unit, ranges[..|ranges| - 1]) == [];
  }

  lemma NeverFits(unit: int)
    ensures NoWords(TOO_TALL, 0, 0) && NoSizeFits(TOO_TALL, unit, 0, 0)
    ensures forall view: View :: !Fits(TOO_TALL, unit, view)
  {
    forall view: View ensures !Fits(TOO_TALL, unit, view) {
      assert TOO_TALL.overflows(unit, view);
    }
  }

  lemma WordlessRange(slide: Slide, unit: int, r: Range)
    requires ValidSlide(slide) && NoWords(slide, r.from, r.to) && NoSizeFits(slide, unit, r.from, r.to)
    ensures PagesOfRange(slide, unit, r) == [Page(r.from, r.to, Shrunk(slide, unit, r.from, r.to), None)]
  {
    hide TextView, ItemView, Shrunk, FlowAt, NoSizeFits, Fits, GoodFlow;
    ShrunkFitsIff(slide, unit, r.from, r.to);
    FlowAtGood(slide, r.from, r.to);
  }

  /** An entry is a node shown, with its whole text, inside the whole. */
  ghost predicate EntryGood(slide: Slide, hidden: seq<bool>, e: Entry, length: nat) {
    && e.node < |slide.nodes| == |slide.texts| && e.text == slide.texts[e.node] && e.first + |e.text| <= length
    && IsShown(slide, hidden, e.node)
  }

  ghost predicate EntriesGood(slide: Slide, hidden: seq<bool>, entries: seq<Entry>, length: nat) {
    && (forall i :: 0 <= i < |entries| ==> EntryGood(slide, hidden, entries[i], length))
    && (forall i, j :: 0 <= i < j < |entries| ==> entries[i].node < entries[j].node)
  }

  /** How much text the nodes before one have that are shown and have a word in them. */
  function TextBefore(slide: Slide, hidden: seq<bool>, n: nat): nat
    requires n <= |slide.nodes| == |slide.texts|
  {
    if n == 0 then 0
    else
      TextBefore(slide, hidden, n - 1)
      + if IsShown(slide, hidden, n - 1) && !Blank(slide.texts[n - 1]) then |slide.texts[n - 1]| else 0
  }

  /** Each node's text begins in the whole after that of those before it. */
  lemma {:induction false} FlowPlaces(slide: Slide, hidden: seq<bool>, n: nat)
    requires n <= |slide.nodes| == |slide.texts|
    ensures var f := FlowOf(slide, hidden, n);
            && |f.whole| == TextBefore(slide, hidden, n)
            && forall i :: 0 <= i < |f.entries| ==>
                             && f.entries[i].node < n
                             && f.entries[i].first == TextBefore(slide, hidden, f.entries[i].node)
                             && !Blank(slide.texts[f.entries[i].node])
  {
    hide IsShown, Blank, WordEnds;
    if n > 0 {
      FlowPlaces(slide, hidden, n - 1);
      WordEndsGood(slide.texts[n - 1], 0);
      assert slide.texts[n - 1][0..] == slide.texts[n - 1];
    }
  }

  /** The flow has, once each, exactly the nodes shown that have a word in them. */
  lemma FlowEntries(slide: Slide, hidden: seq<bool>, n: nat)
    requires n <= |slide.nodes| == |slide.texts|
    ensures var f := FlowOf(slide, hidden, n);
            && EntriesGood(slide, hidden, f.entries, |f.whole|)
            && (forall i :: 0 <= i < |f.entries| ==> f.entries[i].node < n)
            && forall k ::
                 0 <= k < n && IsShown(slide, hidden, k) && !Blank(slide.texts[k])
                 ==> exists i :: 0 <= i < |f.entries| && f.entries[i].node == k
  {
    hide FlowOf, EntriesGood, IsShown, Blank;
    FlowOrdered(slide, hidden, n);
    forall k | 0 <= k < n && IsShown(slide, hidden, k) && !Blank(slide.texts[k])
      ensures exists i :: 0 <= i < |FlowOf(slide, hidden, n).entries| && FlowOf(slide, hidden, n).entries[i].node == k
    {
      var i := FlowHas(slide, hidden, n, k);
    }
  }

  lemma {:induction false} FlowOrdered(slide: Slide, hidden: seq<bool>, n: nat)
    requires n <= |slide.nodes| == |slide.texts|
    ensures var f := FlowOf(slide, hidden, n);
            EntriesGood(slide, hidden, f.entries, |f.whole|)
            && forall i :: 0 <= i < |f.entries| ==> f.entries[i].node < n
  {
    hide IsShown, WordEnds;
    if n > 0 {
      FlowOrdered(slide, hidden, n - 1);
    }
  }

  lemma {:induction false} FlowHas(slide: Slide, hidden: seq<bool>, n: nat, k: nat) returns (i: nat)
    requires k < n <= |slide.nodes| == |slide.texts| && IsShown(slide, hidden, k) && !Blank(slide.texts[k])
    ensures i < |FlowOf(slide, hidden, n).entries| && FlowOf(slide, hidden, n).entries[i].node == k
  {
    hide IsShown, Blank, WordEnds;
    if k < n - 1 {
      i := FlowHas(slide, hidden, n - 1, k);
    } else {
      WordEndsGood(slide.texts[k], 0);
      assert slide.texts[k][0..] == slide.texts[k];
      i := |FlowOf(slide, hidden, k).entries|;
    }
  }

  /** What each node shows: its piece when it is in the flow, and what it showed before when it is not. */
  lemma {:induction false} DataOfMeaning(slide: Slide, hidden: seq<bool>, entries: seq<Entry>, length: nat,
                                         data: seq<Text>, from: nat, to: nat)
    requires EntriesGood(slide, hidden, entries, length) && |data| == |slide.nodes|
    ensures forall i ::
              0 <= i < |entries|
              ==> DataOf(entries, data, from, to)[entries[i].node] == ShownPiece(entries[i], from, to)
    ensures forall k ::
              0 <= k < |data| && (forall i :: 0 <= i < |entries| ==> entries[i].node != k)
              ==> DataOf(entries, data, from, to)[k] == data[k]
  {
    hide ShownPiece, IsShown;
    if entries != [] {
      var front := entries[..|entries| - 1];
      assert EntriesGood(slide, hidden, front, length);
      DataOfMeaning(slide, hidden, front, length, data, from, to);
      forall k | 0 <= k < |data| && (forall i :: 0 <= i < |entries| ==> entries[i].node != k)
        ensures DataOf(entries, data, from, to)[k] == data[k]
      {
        assert forall i :: 0 <= i < |front| ==> front[i].node == entries[i].node;
      }
    }
  }

  // ---------- What a page of text shows ----------

  /** A node on a page's items that has a word in it. */
  predicate WordOnPage(slide: Slide, page: Page, node: nat)
    requires |slide.texts| == |slide.nodes|
  {
    && node < |slide.nodes| && !Blank(slide.texts[node])
    && (slide.nodes[node].item.None? || page.from <= slide.nodes[node].item.value < page.to)
  }

  /** How much text the nodes before one on the page's items have, those without a word left out. */
  function StartsAt(slide: Slide, page: Page, node: nat): nat
    requires |slide.texts| == |slide.nodes| && node <= |slide.nodes|
  {
    if node == 0 then 0
    else
      StartsAt(slide, page, node - 1)
      + if WordOnPage(slide, page, node - 1) then |slide.texts[node - 1]| else 0
  }

  /** Some of a node's text is among the part of the text the page shows. */
  predicate HasPart(slide: Slide, page: Page, node: nat)
    requires |slide.texts| == |slide.nodes| && node < |slide.nodes|
  {
    && page.text.Some? && page.text.value.from < page.text.value.to
    && page.text.value.from < StartsAt(slide, page, node) + |slide.texts[node]|
    && StartsAt(slide, page, node) < page.text.value.to
  }

  /** What of a node's text lies in that part. */
  function PartOf(slide: Slide, page: Page, node: nat): Text
    requires |slide.texts| == |slide.nodes| && node < |slide.nodes| && HasPart(slide, page, node)
  {
    var first, text, part := StartsAt(slide, page, node), slide.texts[node], page.text.value;
    text[(if part.from > first then part.from - first else 0)..
         if part.to - first < |text| then part.to - first else |text|]
  }

  lemma OnPageIsShown(slide: Slide, page: Page, node: nat)
    requires ValidSlide(slide) && node < |slide.nodes|
    ensures WordOnPage(slide, page, node)
            <==> IsShown(slide, Hidden(slide.items, page.from, page.to), node) && !Blank(slide.texts[node])
  {
    hide Blank, GoodSegments;
  }

  lemma {:induction false} StartsBefore(slide: Slide, page: Page, node: nat)
    requires ValidSlide(slide) && node <= |slide.nodes|
    ensures StartsAt(slide, page, node) == TextBefore(slide, Hidden(slide.items, page.from, page.to), node)
  {
    hide WordOnPage, IsShown, Blank, GoodSegments;
    if node > 0 {
      StartsBefore(slide, page, node - 1);
      OnPageIsShown(slide, page, node - 1);
    }
  }

  /** A page's flow has exactly those nodes, each with its text where it starts. */
  lemma PageEntries(slide: Slide, page: Page)
    requires ValidSlide(slide)
    ensures var entries := FlowAt(slide, page.from, page.to).entries;
            && (forall i :: 0 <= i < |entries| ==>
                  WordOnPage(slide, page, entries[i].node)
                  && entries[i] == Entry(entries[i].node, slide.texts[entries[i].node],
                                         StartsAt(slide, page, entries[i].node)))
            && forall node: nat :: WordOnPage(slide, page, node)
                              ==> exists i :: 0 <= i < |entries| && entries[i].node == node
  {
    hide FlowOf, WordOnPage, IsShown, Blank, StartsAt, TextBefore, GoodSegments;
    var hidden := Hidden(slide.items, page.from, page.to);
    FlowEntries(slide, hidden, |slide.nodes|);
    FlowPlaces(slide, hidden, |slide.nodes|);
    var entries := FlowAt(slide, page.from, page.to).entries;
    forall i | 0 <= i < |entries|
      ensures WordOnPage(slide, page, entries[i].node)
              && entries[i] == Entry(entries[i].node, slide.texts[entries[i].node],
                                     StartsAt(slide, page, entries[i].node))
    {
      OnPageIsShown(slide, page, entries[i].node);
      StartsBefore(slide, page, entries[i].node);
    }
    forall node: nat | node < |slide.nodes| && WordOnPage(slide, page, node)
      ensures exists i :: 0 <= i < |entries| && entries[i].node == node
    {
      OnPageIsShown(slide, page, node);
    }
    InSlide(slide, page);
  }

  lemma InSlide(slide: Slide, page: Page)
    requires |slide.texts| == |slide.nodes|
    ensures forall node: nat :: WordOnPage(slide, page, node) ==> node < |slide.nodes|
  {
    hide Blank;
  }

  lemma PieceIsPart(slide: Slide, page: Page, node: nat)
    requires ValidSlide(slide) && WordOnPage(slide, page, node) && page.text.Some?
    ensures var e := Entry(node, slide.texts[node], StartsAt(slide, page, node));
            Piece(e, page.text.value.from, page.text.value.to)
            == if HasPart(slide, page, node) then PartOf(slide, page, node) else []
    ensures HasPart(slide, page, node) ==> PartOf(slide, page, node) != []
  {
    hide StartsAt, GoodSegments;
    assert slide.texts[node] != [];
  }

  /**
   An element is marked elsewhere, and so off the page, exactly when the page splits the text, some node with a word on
   its items is under the element, and no such node has a part of its text on the page.
   */
  lemma ElsewhereIff(slide: Slide, page: Page, element: nat)
    requires ValidSlide(slide)
    ensures element in PageView(slide, page).elsewhere
            <==> && page.text.Some?
                 && (exists node: nat :: WordOnPage(slide, page, node) && element in slide.nodes[node].ancestors)
                 && forall node: nat :: WordOnPage(slide, page, node) && element in slide.nodes[node].ancestors
                                   ==> !HasPart(slide, page, node)
  {
    hide FlowAt, WordOnPage, HasPart, DataOf, StartsAt, Piece, GoodSegments, PartOf, Blank;
    PageEntries(slide, page);
    InSlide(slide, page);
    if page.text.Some? {
      var entries := FlowAt(slide, page.from, page.to).entries;
      forall i | 0 <= i < |entries|
        ensures (Piece(entries[i], page.text.value.from, page.text.value.to) != [])
                <==> HasPart(slide, page, entries[i].node)
      {
        PieceIsPart(slide, page, entries[i].node);
      }
      forall node: nat | WordOnPage(slide, page, node) && element in slide.nodes[node].ancestors
        ensures exists i :: 0 <= i < |entries| && entries[i].node == node
      {
      }
    }
  }

  /**
   What a node with a word shows on a page: all its text when the page does not split it, nothing when it has no part on
   the page, and otherwise its part, without the white space it ends with when more of it follows.
   */
  lemma PartShown(slide: Slide, page: Page, node: nat)
    requires ValidSlide(slide) && WordOnPage(slide, page, node)
    ensures var shown, text := NodeText(slide, page, node), slide.texts[node];
            && (page.text.None? ==> shown == text)
            && (page.text.Some? && !HasPart(slide, page, node) ==> shown == [])
            && (HasPart(slide, page, node) ==>
                  var part := PartOf(slide, page, node);
                  && (StartsAt(slide, page, node) + |text| <= page.text.value.to ==> shown == part)
                  && (StartsAt(slide, page, node) + |text| > page.text.value.to ==>
                        && shown <= part && Blank(part[|shown|..])
                        && (shown != [] ==> !IsSpace(shown[|shown| - 1]))))
  {
    hide FlowAt, ShownPiece, WordOnPage, HasPart, PartOf, StartsAt, Blank, Elements, Holding, GoodSegments, ItemView;
    PageEntries(slide, page);
    InSlide(slide, page);
    PartMeansText(slide, page, node);
    if page.text.None? {
      AllText(slide, page);
    } else {
      var entries := FlowAt(slide, page.from, page.to).entries;
      var i :| 0 <= i < |entries| && entries[i].node == node;
      var r := Range(page.from, page.to);
      PieceOnPage(slide, r, page.scale, page.text.value, entries[i]);
      assert page == PageFor(r, page.scale, page.text.value);
      ShownPieceIs(entries[i], page.text.value.from, page.text.value.to);
      PieceIsPart(slide, page, node);
    }
  }

  lemma AllText(slide: Slide, page: Page)
    requires |slide.texts| == |slide.nodes| && page.text.None?
    ensures PageView(slide, page).data == slide.texts
  {
  }

  lemma PartMeansText(slide: Slide, page: Page, node: nat)
    requires |slide.texts| == |slide.nodes| && node < |slide.nodes|
    ensures HasPart(slide, page, node) ==> page.text.Some?
  {
    hide StartsAt;
  }

  lemma ShownPieceIs(e: Entry, from: nat, to: nat)
    ensures var shown, part := ShownPiece(e, from, to), Piece(e, from, to);
            && (e.first + |e.text| <= to ==> shown == part)
            && (e.first + |e.text| > to ==>
                  && shown <= part && Blank(part[|shown|..]) && (shown != [] ==> !IsSpace(shown[|shown| - 1])))
            && (part == [] ==> shown == [])
  {
    hide Piece, IsSpace, Blank;
    TrimEndIsPrefix(Piece(e, from, to));
  }

  /** Where a node is under an element marked elsewhere, it has no text on the page. */
  lemma NothingElsewhere(slide: Slide, page: Page, node: nat)
    requires ValidSlide(slide) && WordOnPage(slide, page, node)
    ensures !(slide.nodes[node].ancestors !! PageView(slide, page).elsewhere) ==> NodeText(slide, page, node) == []
  {
    hide PageView, HasPart, PartOf, StartsAt, Blank, WordOnPage, NodeText, GoodSegments;
    InSlide(slide, page);
    PartShown(slide, page, node);
    if element: nat :| element in slide.nodes[node].ancestors && element in PageView(slide, page).elsewhere {
      ElsewhereIff(slide, page, element);
    }
  }

  /** What a node shows over some pages, one after another. */
  function ShownOver(slide: Slide, pages: seq<Page>, node: nat): Text
    requires |slide.texts| == |slide.nodes| && node < |slide.nodes|
  {
    if pages == [] then []
    else ShownOver(slide, pages[..|pages| - 1], node) + NodeText(slide, pages[|pages| - 1], node)
  }

  function NodeText(slide: Slide, page: Page, node: nat): Text
    requires |slide.texts| == |slide.nodes| && node < |slide.nodes|
  {
    PageView(slide, page).data[node]
  }

  lemma {:induction false} JoinedAppend(e: Entry, pages: seq<Range>, last: Range)
    ensures Joined(e, pages + [last]) == Joined(e, pages) + ShownPiece(e, last.from, last.to)
  {
    hide ShownPiece;
    if pages != [] {
      JoinedAppend(e, pages[1..], last);
      assert (pages + [last])[1..] == pages[1..] + [last];
    } else {
      assert pages + [last] == [last];
      assert Joined(e, [last][1..]) == [];
    }
  }

  function PagesFor(r: Range, scale: Option<int>, parts: seq<Range>): seq<Page> {
    seq(|parts|, i requires 0 <= i < |parts| => PageFor(r, scale, parts[i]))
  }

  lemma {:induction false} ShownOverParts(slide: Slide, r: Range, scale: Option<int>, parts: seq<Range>, e: Entry)
    requires |slide.texts| == |slide.nodes| && e in FlowAt(slide, r.from, r.to).entries && e.node < |slide.nodes|
    ensures ShownOver(slide, PagesFor(r, scale, parts), e.node) == Joined(e, parts)
  {
    hide ShownPiece, FlowOf, DataOf, Elements, Holding, ItemView;
    if parts != [] {
      var front, last := parts[..|parts| - 1], parts[|parts| - 1];
      ShownOverParts(slide, r, scale, front, e);
      var pages := PagesFor(r, scale, parts);
      assert pages[..|pages| - 1] == PagesFor(r, scale, front);
      assert pages[|pages| - 1] == PageFor(r, scale, last);
      PieceOnPage(slide, r, scale, last, e);
      JoinedAppend(e, front, last);
      assert parts == front + [last];
    }
  }

  lemma PieceOnPage(slide: Slide, r: Range, scale: Option<int>, part: Range, e: Entry)
    requires |slide.texts| == |slide.nodes| && e in FlowAt(slide, r.from, r.to).entries && e.node < |slide.nodes|
    ensures NodeText(slide, PageFor(r, scale, part), e.node) == ShownPiece(e, part.from, part.to)
  {
    hide ShownPiece, FlowOf;
    var hidden := Hidden(slide.items, r.from, r.to);
    FlowEntries(slide, hidden, |slide.nodes|);
    var flow := FlowAt(slide, r.from, r.to);
    DataOfMeaning(slide, hidden, flow.entries, |flow.whole|, slide.texts, part.from, part.to);
    var i :| 0 <= i < |flow.entries| && flow.entries[i] == e;
  }

  /** Every text node on a range's pages shows, over those pages together, all its text but for white space. */
  lemma NothingLost(slide: Slide, unit: int, r: Range, node: nat)
    requires ValidSlide(slide) && node < |slide.nodes| && IsShown(slide, Hidden(slide.items, r.from, r.to), node)
             && !Blank(slide.texts[node])
    ensures Solid(ShownOver(slide, PagesOfRange(slide, unit, r), node)) == Solid(slide.texts[node])
  {
    hide Solid, ShownPiece, FlowOf, TextPagesFrom, Shrunk, Blank, IsShown, GoodFlow, GoodSegments;
    var hidden := Hidden(slide.items, r.from, r.to);
    var scale := Shrunk(slide, unit, r.from, r.to);
    var base := ItemView(slide, r.from, r.to, scale);
    var flow := FlowAt(slide, r.from, r.to);
    FlowAtGood(slide, r.from, r.to);
    FlowEntries(slide, hidden, |slide.nodes|);
    var i :| 0 <= i < |flow.entries| && flow.entries[i].node == node;
    var e := flow.entries[i];
    assert EntryGood(slide, hidden, e, |flow.whole|);
    TextPagesCut(slide, flow, TextFits(slide, unit, base, flow), 0);
    var parts := TextPages(slide, unit, base, flow);
    var pages := PagesOfRange(slide, unit, r);
    if Fits(slide, unit, base) || parts == [] {
      assert pages == [Page(r.from, r.to, scale, None)] && pages[..0] == [];
      assert NodeText(slide, pages[0], node) == slide.texts[node];
      assert ShownOver(slide, pages, node) == slide.texts[node];
    } else {
      assert pages == PagesFor(r, scale, parts);
      ShownOverParts(slide, r, scale, parts, e);
      PiecesJoin(e, parts, 0, |flow.whole|);
    }
  }

  // ---------- Nothing of the slide is lost ----------

  /** What a reader sees of a node on a page: nothing where its item is hidden, or an element it is in is elsewhere. */
  function SeenText(slide: Slide, page: Page, node: nat): Text
    requires |slide.texts| == |slide.nodes| && node < |slide.nodes|
  {
    var view := PageView(slide, page);
    if IsShown(slide, view.hidden, node) && slide.nodes[node].ancestors !! view.elsewhere then
      NodeText(slide, page, node)
    else []
  }

  function SeenOver(slide: Slide, pages: seq<Page>, node: nat): Text
    requires |slide.texts| == |slide.nodes| && node < |slide.nodes|
  {
    if pages == [] then []
    else SeenOver(slide, pages[..|pages| - 1], node) + SeenText(slide, pages[|pages| - 1], node)
  }

  lemma {:induction false} SeenAppend(slide: Slide, a: seq<Page>, b: seq<Page>, node: nat)
    requires |slide.texts| == |slide.nodes| && node < |slide.nodes|
    ensures SeenOver(slide, a + b, node) == SeenOver(slide, a, node) + SeenOver(slide, b, node)
  {
    hide SeenText;
    if b == [] {
      assert a + b == a;
    } else {
      SeenAppend(slide, a, b[..|b| - 1], node);
      assert (a + b)[..|a + b| - 1] == a + b[..|b| - 1];
    }
  }

  predicate Holds(r: Range, item: nat) {
    r.from <= item < r.to
  }

  lemma RangePages(slide: Slide, unit: int, r: Range, i: nat)
    requires ValidSlide(slide) && i < |PagesOfRange(slide, unit, r)|
    ensures PageView(slide, PagesOfRange(slide, unit, r)[i]).hidden == Hidden(slide.items, r.from, r.to)
  {
    hide Shrunk, FlowOf, TextPages, Fits, DataOf, Elements, Holding, GoodFlow, GoodSegments;
  }

  lemma {:induction false} SeenWhere(slide: Slide, hidden: seq<bool>, pages: seq<Page>, node: nat)
    requires ValidSlide(slide) && node < |slide.nodes| && !Blank(slide.texts[node])
    requires forall i :: 0 <= i < |pages| ==> PageView(slide, pages[i]).hidden == hidden
    ensures SeenOver(slide, pages, node) == if IsShown(slide, hidden, node) then ShownOver(slide, pages, node) else []
  {
    hide PageView, IsShown, Blank, GoodSegments;
    if pages != [] {
      var last := pages[|pages| - 1];
      SeenWhere(slide, hidden, pages[..|pages| - 1], node);
      assert PageView(slide, last).hidden == hidden;
      if IsShown(slide, hidden, node) {
        PageHidden(slide, last);
        OnPageIsShown(slide, last, node);
        NothingElsewhere(slide, last, node);
      }
    }
  }

  lemma PageHidden(slide: Slide, page: Page)
    requires |slide.texts| == |slide.nodes|
    ensures PageView(slide, page).hidden == Hidden(slide.items, page.from, page.to)
  {
    hide FlowAt, DataOf, Elements, Holding;
  }

  /** The pages of a range show a node's whole text when the range holds its item, and none of it otherwise. */
  lemma SeenOfRange(slide: Slide, unit: int, r: Range, node: nat, item: nat)
    requires ValidSlide(slide) && node < |slide.nodes| && slide.nodes[node].item == Some(item)
             && !Blank(slide.texts[node])
    ensures Holds(r, item) ==> Solid(SeenOver(slide, PagesOfRange(slide, unit, r), node)) == Solid(slide.texts[node])
    ensures !Holds(r, item) ==> SeenOver(slide, PagesOfRange(slide, unit, r), node) == []
  {
    hide PagesOfRange, PageView, Solid, Blank, GoodSegments;
    var pages, hidden := PagesOfRange(slide, unit, r), Hidden(slide.items, r.from, r.to);
    forall i | 0 <= i < |pages| ensures PageView(slide, pages[i]).hidden == hidden {
      RangePages(slide, unit, r, i);
    }
    SeenWhere(slide, hidden, pages, node);
    if Holds(r, item) {
      NothingLost(slide, unit, r, node);
    }
  }

  lemma {:induction false} SeenNowhere(slide: Slide, unit: int, ranges: seq<Range>, node: nat, item: nat)
    requires ValidSlide(slide) && node < |slide.nodes| && slide.nodes[node].item == Some(item)
             && !Blank(slide.texts[node])
    requires forall i :: 0 <= i < |ranges| ==> !Holds(ranges[i], item)
    ensures SeenOver(slide, PagesOfRanges(slide, unit, ranges), node) == []
  {
    hide PagesOfRange, SeenText, Blank, GoodSegments, Holds;
    if ranges != [] {
      var front, last := ranges[..|ranges| - 1], ranges[|ranges| - 1];
      SeenNowhere(slide, unit, front, node, item);
      SeenOfRange(slide, unit, last, node, item);
      SeenAppend(slide, PagesOfRanges(slide, unit, front), PagesOfRange(slide, unit, last), node);
    }
  }

  lemma {:induction false} SeenOnce(slide: Slide, unit: int, ranges: seq<Range>, node: nat, item: nat, k: nat)
    requires ValidSlide(slide) && node < |slide.nodes| && slide.nodes[node].item == Some(item)
             && !Blank(slide.texts[node])
    requires k < |ranges| && forall i :: 0 <= i < |ranges| ==> (Holds(ranges[i], item) <==> i == k)
    ensures Solid(SeenOver(slide, PagesOfRanges(slide, unit, ranges), node)) == Solid(slide.texts[node])
  {
    hide PagesOfRange, SeenText, SeenOver, Blank, GoodSegments, Holds, Solid;
    var front, last := ranges[..|ranges| - 1], ranges[|ranges| - 1];
    SeenOfRange(slide, unit, last, node, item);
    SeenAppend(slide, PagesOfRanges(slide, unit, front), PagesOfRange(slide, unit, last), node);
    if k == |ranges| - 1 {
      SeenNowhere(slide, unit, front, node, item);
      assert [] + SeenOver(slide, PagesOfRange(slide, unit, last), node)
             == SeenOver(slide, PagesOfRange(slide, unit, last), node);
    } else {
      SeenOnce(slide, unit, front, node, item, k);
      assert SeenOver(slide, PagesOfRanges(slide, unit, front), node) + []
             == SeenOver(slide, PagesOfRanges(slide, unit, front), node);
    }
  }

  /** Of the ranges of a cut, exactly one holds an item. */
  lemma {:induction false} CutHoldsOnce(ranges: seq<Range>, from: nat, to: nat, item: nat) returns (k: nat)
    requires Cuts(ranges, from, to) && from <= item < to
    ensures k < |ranges| && forall i :: 0 <= i < |ranges| ==> (Holds(ranges[i], item) <==> i == k)
  {
    CutsAfter(ranges[1..], ranges[0].to, to);
    if item < ranges[0].to {
      k := 0;
      assert forall i :: 1 <= i < |ranges| ==> ranges[i] == ranges[1..][i - 1];
    } else {
      var m := CutHoldsOnce(ranges[1..], ranges[0].to, to, item);
      k := m + 1;
      assert forall i :: 1 <= i < |ranges| ==> ranges[i] == ranges[1..][i - 1];
    }
  }

  lemma {:induction false} CutsAfter(ranges: seq<Range>, from: nat, to: nat)
    requires Cuts(ranges, from, to)
    ensures forall i :: 0 <= i < |ranges| ==> from <= ranges[i].from
  {
    if ranges != [] {
      CutsAfter(ranges[1..], ranges[0].to, to);
      assert forall i :: 1 <= i < |ranges| ==> ranges[i] == ranges[1..][i - 1];
    }
  }

  /**
   Over all the pages of a slide, one after another, a reader sees the whole text of every node of every item, each
   once, but for white space. Text outside the list is on the pages of every range, each time whole, as `NothingLost`
   says.
   */
  lemma WholeSlideShown(slide: Slide, unit: int, node: nat)
    requires ValidSlide(slide) && node < |slide.nodes| && slide.nodes[node].item.Some? && !Blank(slide.texts[node])
    ensures Solid(SeenOver(slide, AllPages(slide, unit), node)) == Solid(slide.texts[node])
  {
    hide PagesOfRanges, SeenOver, Solid, Blank, GoodSegments, ItemPages;
    var item := slide.nodes[node].item.value;
    var ranges := ItemPages(ItemsFit(slide, unit), slide.items);
    ItemPagesOptimal(ItemsFit(slide, unit), slide.items, []);
    var k := CutHoldsOnce(ranges, 0, slide.items, item);
    SeenOnce(slide, unit, ranges, node, item, k);
  }

  // ---------- The program ----------

  /** The node of an entry shows what it is to. */
  ghost predicate SameBut(slide: Slide, a: View, b: View, entries: seq<Entry>) {
    && a.hidden == b.hidden && a.scale == b.scale && |a.data| == |b.data| == |slide.nodes|
    && (forall k ::
          0 <= k < |a.data| && (forall i :: 0 <= i < |entries| ==> entries[i].node != k) ==> a.data[k] == b.data[k])
    && a.elsewhere - Elements(slide, entries) == b.elsewhere - Elements(slide, entries)
  }

  /** Whatever part was shown before, showing a part leaves the same. */
  lemma TextViewOver(slide: Slide, a: View, base: View, flow: Flow, from: nat, to: nat)
    requires SameBut(slide, a, base, flow.entries) && EntriesGood(slide, base.hidden, flow.entries, |flow.whole|)
    ensures TextView(slide, a, flow, from, to) == TextView(slide, base, flow, from, to)
    ensures SameBut(slide, TextView(slide, a, flow, from, to), base, flow.entries)
  {
    hide ShownPiece, Elements, Holding, IsShown;
    DataOfMeaning(slide, base.hidden, flow.entries, |flow.whole|, a.data, from, to);
    DataOfMeaning(slide, base.hidden, flow.entries, |flow.whole|, base.data, from, to);
    var x, y := DataOf(flow.entries, a.data, from, to), DataOf(flow.entries, base.data, from, to);
    forall k | 0 <= k < |x| ensures x[k] == y[k] {
      if i :| 0 <= i < |flow.entries| && flow.entries[i].node == k {
        assert x[flow.entries[i].node] == ShownPiece(flow.entries[i], from, to);
      }
    }
    assert x == y;
    HoldingWithin(slide, flow.entries, from, to);
  }

  lemma HoldingWithin(slide: Slide, entries: seq<Entry>, from: nat, to: nat)
    ensures Holding(slide, entries, from, to) <= Elements(slide, entries)
  {
  }

  /** A slide on the stage, with what fitting it changes: the fields are the page's own, and the texts put by. */
  class Stage {
    const slide: Slide
    var hidden: seq<bool>
    var scale: Option<int>
    var data: seq<Text>
    var elsewhere: set<nat>
    var originals: map<nat, Text>

    ghost function Visible(): View
      reads this
    {
      View(hidden, scale, data, elsewhere)
    }

    /** A text put by is the node's own, and a node whose text is not put by has its own. */
    ghost predicate Valid()
      reads this
    {
      && ValidSlide(slide) && |hidden| == slide.items && |data| == |slide.nodes|
      && (forall i :: i in originals ==> i < |slide.nodes| && originals[i] == slide.texts[i])
      && (forall i :: 0 <= i < |slide.nodes| && i !in originals ==> data[i] == slide.texts[i])
    }

    constructor (slide: Slide)
      requires ValidSlide(slide)
      ensures this.slide == slide && Valid() && Visible() == Pristine(slide)
    {
      this.slide := slide;
      this.hidden := Hidden(slide.items, 0, slide.items);
      this.scale, this.data, this.elsewhere, this.originals := None, slide.texts, {}, map[];
    }

    method Overflows(unit: int) returns (r: bool)
      ensures r == !Fits(slide, unit, Visible())
    {
      r := slide.overflows(unit, View(hidden, scale, data, elsewhere));
    }

    method ShowItems(from: nat, to: nat)
      requires Valid()
      modifies this`hidden
      ensures hidden == Hidden(slide.items, from, to)
    {
      for index := 0 to slide.items
        invariant |hidden| == slide.items
        invariant forall k :: 0 <= k < index ==> hidden[k] == (k < from || k >= to)
      {
        hidden := hidden[index := index < from || index >= to];
      }
    }

    /** Whatever a page made of it, the slide is as it was. */
    method Restore()
      requires Valid()
      modifies this`hidden, this`scale, this`data, this`elsewhere
      ensures Valid() && Visible() == Pristine(slide)
    {
      scale := None;
      for i := 0 to |data|
        invariant |data| == |slide.nodes| && hidden == old(hidden) && scale == None
        invariant forall k :: 0 <= k < i ==> data[k] == slide.texts[k]
        invariant forall k :: i <= k < |data| && k !in originals ==> data[k] == slide.texts[k]
      {
        if i in originals && data[i] != originals[i] {
          data := data[i := originals[i]];
        }
      }
      elsewhere := {};
      ShowItems(0, slide.items);
      assert data == slide.texts;
    }

    /** `fitting`. */
    method Fitting(unit: int, start: nat) returns (count: nat)
      requires Valid() && start < slide.items && scale == None && data == slide.texts && elsewhere == {}
      modifies this`hidden
      ensures Valid() && count == CountAt(ItemsFit(slide, unit), slide.items, start)
    {
      hide Fits, ItemsFit, CountFits, CountAt, Search;
      CountAtIs(ItemsFit(slide, unit), slide.items, start);
      var low, high := 1, slide.items - start;
      while low < high
        invariant Valid() && 1 <= low <= high <= slide.items - start
        invariant Search(CountFits(ItemsFit(slide, unit), start), low, high)
                  == CountAt(ItemsFit(slide, unit), slide.items, start)
        decreases high - low
      {
        count := (low + high + 1) / 2;
        ShowItems(start, start + count);
        assert Visible() == ItemView(slide, start, start + count, None);
        var over := Overflows(unit);
        CountFitsIs(slide, unit, start, count);
        SearchStep(CountFits(ItemsFit(slide, unit), start), low, high);
        if over {
          high := count - 1;
        } else {
          low := count;
        }
      }
      count := low;
      SearchStep(CountFits(ItemsFit(slide, unit), start), low, high);
    }

    /** `itemPages`. */
    method PagesOfItems(unit: int) returns (pages: seq<Range>)
      requires Valid() && scale == None && data == slide.texts && elsewhere == {}
      modifies this`hidden
      ensures Valid() && pages == ItemPages(ItemsFit(slide, unit), slide.items)
    {
      hide CountAt;
      if slide.items <= 1 {
        return [Range(0, slide.items)];
      }
      pages := [];
      var start := 0;
      while start < slide.items
        invariant Valid() && start <= slide.items
        invariant pages + ItemPagesFrom(ItemsFit(slide, unit), slide.items, start)
                  == ItemPagesFrom(ItemsFit(slide, unit), slide.items, 0)
      {
        var count := Fitting(unit, start);
        pages := pages + [Range(start, start + count)];
        start := start + count;
      }
    }

    /** `shrink`. */
    method Shrink(unit: int, ghost from: nat, ghost to: nat)
      requires Valid() && Visible() == ItemView(slide, from, to, None)
      modifies this`scale
      ensures Valid() && Visible() == ItemView(slide, from, to, Shrunk(slide, unit, from, to))
    {
      hide Fits;
      var next: nat := 100 - SCALE_STEP;
      var over := Overflows(unit);
      while over && 2 * next >= 2 * MIN_SCALE - SCALE_STEP
        invariant Visible() == ItemView(slide, from, to, scale)
        invariant over == !Fits(slide, unit, Visible())
        invariant ShrinkFrom(slide, unit, from, to, scale, next) == Shrunk(slide, unit, from, to)
        decreases next
      {
        scale := Some(next);
        next := next - SCALE_STEP;
        over := Overflows(unit);
      }
    }

    /** `textFlow`: each shown node's own text is put by. */
    method MakeFlow() returns (flow: Flow)
      requires Valid() && data == slide.texts
      modifies this`originals
      ensures Valid() && flow == FlowOf(slide, hidden, |slide.nodes|)
      ensures forall i :: 0 <= i < |flow.entries| ==> flow.entries[i].node in originals
    {
      hide IsShown, WordEnds;
      flow := Flow([], [], []);
      for i := 0 to |slide.nodes|
        invariant Valid() && flow == FlowOf(slide, hidden, i)
        invariant forall k :: 0 <= k < |flow.entries| ==> flow.entries[k].node in originals
      {
        if !IsShown(slide, hidden, i) {
          continue;
        }
        var text := if i in originals then originals[i] else data[i];
        originals := originals[i := text];
        var ends := WordEnds(text, 0);
        if ends != [] {
          flow := Flow(flow.entries + [Entry(i, text, |flow.whole|)], flow.whole + text,
                       flow.wordEnds + Shift(ends, |flow.whole|));
        }
      }
    }

    /** A flow made of the slide as a page's items show it, all of whose nodes have their text put by. */
    ghost predicate FlowOn(flow: Flow, base: View)
      reads this
    {
      && Valid() && EntriesGood(slide, base.hidden, flow.entries, |flow.whole|)
      && SameBut(slide, Visible(), base, flow.entries)
      && forall i :: 0 <= i < |flow.entries| ==> flow.entries[i].node in originals
    }

    /** `show` of a flow. */
    method ShowText(flow: Flow, from: nat, to: nat, ghost base: View)
      requires FlowOn(flow, base)
      modifies this`data, this`elsewhere
      ensures FlowOn(flow, base) && Visible() == TextView(slide, base, flow, from, to)
    {
      hide Piece, IsShown, ShownPiece, Holding, Elements, TextView;
      ghost var before := Visible();
      TakeParts(flow, from, to, base.hidden);
      TextViewOver(slide, before, base, flow, from, to);
      TextViewData(slide, before, flow, from, to);
      DataOfMeaning(slide, base.hidden, flow.entries, |flow.whole|, before.data, from, to);
    }

    /** Each node shows its piece, and the elements that hold none are marked elsewhere. */
    method TakeParts(flow: Flow, from: nat, to: nat, ghost shown: seq<bool>)
      requires |data| == |slide.nodes| && EntriesGood(slide, shown, flow.entries, |flow.whole|)
      modifies this`data, this`elsewhere
      ensures Visible() == TextView(slide, old(Visible()), flow, from, to)
    {
      hide Piece, IsShown, ShownPiece, Holding, Elements;
      NoElements(slide, from, to);
      var holding, empty: set<nat> := {}, {};
      for i := 0 to |flow.entries|
        invariant elsewhere == old(elsewhere) && |data| == |slide.nodes|
                  && data == DataOf(flow.entries[..i], old(data), from, to)
        invariant holding == Holding(slide, flow.entries[..i], from, to)
        invariant empty + holding == Elements(slide, flow.entries[..i])
      {
        var e := flow.entries[i];
        assert EntryGood(slide, shown, e, |flow.whole|);
        assert flow.entries[..i + 1] == flow.entries[..i] + [e] && flow.entries[..i + 1][..i] == flow.entries[..i];
        ElementsAppend(slide, flow.entries[..i], e, from, to);
        data := data[e.node := ShownPiece(e, from, to)];
        if Piece(e, from, to) == [] {
          empty := empty + slide.nodes[e.node].ancestors;
        } else {
          holding := holding + slide.nodes[e.node].ancestors;
        }
      }
      assert flow.entries[..|flow.entries|] == flow.entries;
      elsewhere := (elsewhere - (empty + holding)) + (empty - holding);
      assert empty - holding == (empty + holding) - holding;
    }

    /** `furthest`. */
    method FurthestOf(unit: int, flow: Flow, start: nat, ends: seq<nat>, ghost base: View) returns (end: nat)
      requires FlowOn(flow, base) && ends != []
      modifies this`data, this`elsewhere
      ensures FlowOn(flow, base) && end == Furthest(TextFits(slide, unit, base, flow), start, ends)
    {
      hide TextView, Fits, SameBut, EntriesGood, ValidSlide;
      var low, high := 0, |ends| - 1;
      while low < high
        invariant FlowOn(flow, base) && 0 <= low <= high < |ends|
        invariant Search(EndFits(TextFits(slide, unit, base, flow), start, ends), low, high)
                  == Search(EndFits(TextFits(slide, unit, base, flow), start, ends), 0, |ends| - 1)
        decreases high - low
      {
        var middle := (low + high + 1) / 2;
        ShowText(flow, start, ends[middle], base);
        var over := Overflows(unit);
        if over {
          high := middle - 1;
        } else {
          low := middle;
        }
      }
      end := ends[low];
    }

    /** `textPages`. */
    method PagesOfText(unit: int, flow: Flow, ghost base: View) returns (pages: seq<Range>)
      requires FlowOn(flow, base) && CanSplit(slide, flow)
      modifies this`data, this`elsewhere
      ensures FlowOn(flow, base) && pages == TextPages(slide, unit, base, flow)
    {
      hide TextView, Fits, SameBut, EntriesGood, PageEnd;
      pages := [];
      var start := 0;
      while start < |flow.whole|
        invariant FlowOn(flow, base) && start <= |flow.whole|
        invariant pages + TextPagesFrom(slide, flow, TextFits(slide, unit, base, flow), start)
                  == TextPages(slide, unit, base, flow)
      {
        var end := EndOfPage(unit, flow, start, base);
        pages := pages + [Range(start, end)];
        start := end;
      }
    }

    /** The body of the loop of `textPages`. */
    method EndOfPage(unit: int, flow: Flow, start: nat, ghost base: View) returns (end: nat)
      requires FlowOn(flow, base) && CanSplit(slide, flow) && start < |flow.whole|
      modifies this`data, this`elsewhere
      ensures FlowOn(flow, base) && end == PageEnd(slide, flow, TextFits(slide, unit, base, flow), start)
    {
      hide TextView, Fits, SameBut, EntriesGood, Furthest, Beyond;
      WordsBeyond(flow, start);
      var words := Beyond(flow.wordEnds, start);
      end := FurthestOf(unit, flow, start, words, base);
      var later := Beyond(words, end);
      ShowText(flow, start, end, base);
      var over := Overflows(unit);
      if over {
        CharactersBeyond(slide, flow, start, end);
        end := FurthestOf(unit, flow, start, CharacterEnds(slide, flow, start, end), base);
      } else if later != [] {
        NextWordLater(flow, start, end);
        ShowText(flow, end, later[0], base);
        over := Overflows(unit);
        if over {
          CharactersBeyond(slide, flow, end, later[0]);
          end := FurthestOf(unit, flow, start, [end] + CharacterEnds(slide, flow, end, later[0]), base);
        }
      }
    }

    /** The pages of a range of items, its body in the loop of `fitSlide`. */
    method PagesOfItemRange(unit: int, r: Range) returns (pages: seq<Page>)
      requires Valid()
      modifies this
      ensures Valid() && pages == PagesOfRange(slide, unit, r)
    {
      hide Fits, SameBut, TextPages;
      Restore();
      ShowItems(r.from, r.to);
      Shrink(unit, r.from, r.to);
      var over := Overflows(unit);
      if !over {
        return [Page(r.from, r.to, scale, None)];
      }
      ghost var base := Visible();
      var flow := MakeFlow();
      MadeFlow(flow, base);
      FlowAtGood(slide, r.from, r.to);
      var size := scale;
      var parts := PagesOfText(unit, flow, base);
      if parts == [] {
        return [Page(r.from, r.to, size, None)];
      }
      pages := [];
      for i := 0 to |parts|
        invariant |pages| == i && forall k :: 0 <= k < i ==> pages[k] == PageFor(r, size, parts[k])
      {
        pages := pages + [Page(r.from, r.to, size, Some(parts[i]))];
      }
    }

    /** A flow just made of what is visible is on it. */
    lemma MadeFlow(flow: Flow, base: View)
      requires Valid() && base == Visible() && data == slide.texts
      requires flow == FlowOf(slide, hidden, |slide.nodes|)
      requires forall i :: 0 <= i < |flow.entries| ==> flow.entries[i].node in originals
      ensures FlowOn(flow, base)
    {
      FlowEntries(slide, hidden, |slide.nodes|);
    }

    /**
     `fitSlide`: whatever calls came before, what is handed back and what is left on screen depend on the slide as it
     was, the unit and the page alone.
     */
    method FitSlide(unit: int, page: int) returns (fit: SlideFit)
      requires Valid()
      modifies this
      ensures Valid() && (fit, Visible()) == Fitted(slide, unit, page)
    {
      hide Fits, PagesOfRange, ItemPages;
      Restore();
      var over := Overflows(unit);
      if unit <= 0 || !over {
        return SlideFit(0, 1, true);
      }
      var ranges := PagesOfItems(unit);
      var pages: seq<Page> := [];
      for i := 0 to |ranges|
        invariant Valid() && pages == PagesOfRanges(slide, unit, ranges[..i])
      {
        assert ranges[..i + 1][..i] == ranges[..i];
        var more := PagesOfItemRange(unit, ranges[i]);
        pages := pages + more;
      }
      assert ranges[..|ranges|] == ranges;
      AllPagesSome(slide, unit);
      var shown := Clamp(page, |pages|);
      var chosen := pages[shown];
      Restore();
      ShowItems(chosen.from, chosen.to);
      if chosen.scale.Some? {
        scale := chosen.scale;
      }
      if chosen.text.Some? {
        ghost var base := Visible();
        var flow := MakeFlow();
        MadeFlow(flow, base);
        ShowText(flow, chosen.text.value.from, chosen.text.value.to, base);
      }
      over := Overflows(unit);
      return SlideFit(shown, |pages|, !over);
    }
  }

  lemma TextViewData(slide: Slide, v: View, flow: Flow, from: nat, to: nat)
    ensures TextView(slide, v, flow, from, to).data == DataOf(flow.entries, v.data, from, to)
    ensures TextView(slide, v, flow, from, to).hidden == v.hidden && TextView(slide, v, flow, from, to).scale == v.scale
  {
  }

  lemma CountFitsIs(slide: Slide, unit: int, start: nat, count: nat)
    ensures CountFits(ItemsFit(slide, unit), start)(count)
            == Fits(slide, unit, ItemView(slide, start, start + count, None))
  {
    hide Fits, ItemView;
  }

  lemma CountAtIs(fits: (nat, nat) -> bool, n: nat, start: nat)
    requires start < n
    ensures CountAt(fits, n, start) == Search(CountFits(fits, start), 1, n - start)
  {
  }

  lemma NoElements(slide: Slide, from: nat, to: nat)
    ensures Elements(slide, []) == {} && Holding(slide, [], from, to) == {}
  {
  }

  lemma ElementsAppend(slide: Slide, entries: seq<Entry>, e: Entry, from: nat, to: nat)
    requires e.node < |slide.nodes|
    ensures Elements(slide, entries + [e]) == Elements(slide, entries) + slide.nodes[e.node].ancestors
    ensures Holding(slide, entries + [e], from, to)
            == Holding(slide, entries, from, to) + (if Piece(e, from, to) != [] then slide.nodes[e.node].ancestors
                                                    else {})
  {
    hide Piece;
    var all := entries + [e];
    assert all[|entries|] == e;
    forall a | a in Elements(slide, entries) ensures a in Elements(slide, all) {
      var i :| 0 <= i < |entries| && entries[i].node < |slide.nodes| && a in slide.nodes[entries[i].node].ancestors;
      assert all[i] == entries[i];
    }
    forall a | a in Holding(slide, entries, from, to) ensures a in Holding(slide, all, from, to) {
      var i :| 0 <= i < |entries| && entries[i].node < |slide.nodes| && Piece(entries[i], from, to) != []
               && a in slide.nodes[entries[i].node].ancestors;
      assert all[i] == entries[i];
    }
  }
}
