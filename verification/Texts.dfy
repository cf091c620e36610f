/**
 Texts as JavaScript has them, sequences of UTF-16 code units, and the shortener of
 packages/display/src/text.ts.
 */
module Texts {
  type CodeUnit = x: int | 0 <= x < 0x1_0000

  type Text = seq<CodeUnit>

  const ELLIPSIS: CodeUnit := 0x2026

  const SHORTEST_FRAGMENT := 20

  predicate Lead(u: CodeUnit) {
    0xD800 <= u <= 0xDBFF
  }

  predicate Trail(u: CodeUnit) {
    0xDC00 <= u <= 0xDFFF
  }

  /** What `trim`, `trimEnd` and `\s` take for white space. */
  predicate IsSpace(u: CodeUnit) {
    || 9 <= u <= 13 || u == 0x20 || u == 0xA0 || u == 0x1680 || 0x2000 <= u <= 0x200A
    || u == 0x2028 || u == 0x2029 || u == 0x202F || u == 0x205F || u == 0x3000 || u == 0xFEFF
  }

  predicate Blank(t: Text) {
    forall i :: 0 <= i < |t| ==> IsSpace(t[i])
  }

  /** Every surrogate is half of a pair. */
  predicate WellFormed(t: Text) {
    && (forall i :: 0 <= i < |t| && Lead(t[i]) ==> i + 1 < |t| && Trail(t[i + 1]))
    && (forall i :: 0 <= i < |t| && Trail(t[i]) ==> 0 < i && Lead(t[i - 1]))
  }

  function TrimEnd(t: Text): Text {
    if t != [] && IsSpace(t[|t| - 1]) then TrimEnd(t[..|t| - 1]) else t
  }

  /** How many code points the string iterator visits. */
  function Characters(t: Text): nat {
    if t == [] then 0
    else if |t| >= 2 && Lead(t[0]) && Trail(t[1]) then 1 + Characters(t[2..])
    else 1 + Characters(t[1..])
  }

  function Lengths(ts: seq<Text>): nat {
    if ts == [] then 0 else Lengths(ts[..|ts| - 1]) + |ts[|ts| - 1]|
  }

  function TotalCharacters(ts: seq<Text>): nat {
    if ts == [] then 0 else TotalCharacters(ts[..|ts| - 1]) + Characters(ts[|ts| - 1])
  }

  function NonBlank(ts: seq<Text>): seq<Text> {
    if ts == [] then []
    else
      var front := NonBlank(ts[..|ts| - 1]);
      if Blank(ts[|ts| - 1]) then front else front + [ts[|ts| - 1]]
  }

  /** Plain code unit order, as `<` has it on strings. */
  predicate TextLess(a: Text, b: Text) {
    b != [] && (a == [] || a[0] < b[0] || (a[0] == b[0] && TextLess(a[1..], b[1..])))
  }

  function WithEllipsis(text: Text, max: int): Text {
    if max < 1 then []
    else
      var base := TrimEnd(text);
      if |base| + 1 <= max then base + [ELLIPSIS]
      else
        TrimEnd(base[..CutEnd(base, max)]) + [ELLIPSIS]
  }

  /** Where a text too long for `max` is cut, for the ellipsis to fit after it. */
  function CutEnd(base: Text, max: int): (cut: nat)
    requires max >= 1
    ensures cut < max
  {
    if 2 <= max <= |base| + 1 && Lead(base[max - 2]) then max - 2 else max - 1
  }

  function ShortenText(text: Text, max: int): Text {
    if |text| <= max then text else WithEllipsis(text, max)
  }

  /** The length of the longest start of the list whose lengths add up to `max` or less. */
  function Fitting(ts: seq<Text>, max: int): (k: nat)
    ensures k <= |ts|
  {
    if ts == [] || |ts[0]| > max then 0 else 1 + Fitting(ts[1..], max - |ts[0]|)
  }

  /**
   All that is not blank when it is short enough; otherwise what fits whole, and then a beginning of the next text with
   the ellipsis, or, with less than a fragment of room, the ellipsis on the last text that fits.
   */
  function ShortenTexts(texts: seq<Text>, max: nat): seq<Text> {
    var ts := NonBlank(texts);
    var k := Fitting(ts, max);
    if k == |ts| then ts else CutAt(ts, k, max)
  }

  function CutAt(ts: seq<Text>, k: nat, max: int): seq<Text>
    requires k < |ts|
  {
    var left := max - Lengths(ts[..k]);
    if left >= SHORTEST_FRAGMENT || k == 0 then
      var fragment := WithEllipsis(ts[k], left);
      if fragment == [] then ts[..k] else ts[..k] + [fragment]
    else
      ts[..k - 1] + [WithEllipsis(ts[k - 1], |ts[k - 1]| + left)]
  }

  // ---------- The order of texts ----------

  /** The texts agree up to a place, where the first ends or has the lesser code unit. */
  ghost predicate LessAt(a: Text, b: Text, k: nat) {
    k <= |a| && k < |b| && a[..k] == b[..k] && (k == |a| || a[k] < b[k])
  }

  /** That is what it is to come before. */
  lemma {:induction false} TextLessMeaning(a: Text, b: Text)
    ensures TextLess(a, b) <==> exists k: nat :: LessAt(a, b, k)
  {
    if a == [] && b != [] {
      assert LessAt(a, b, 0);
    } else if a != [] && b != [] {
      TextLessMeaning(a[1..], b[1..]);
      if a[0] < b[0] {
        assert LessAt(a, b, 0);
      }
      if a[0] == b[0] && TextLess(a[1..], b[1..]) {
        var k: nat :| LessAt(a[1..], b[1..], k);
        assert a[..k + 1] == [a[0]] + a[1..][..k] && b[..k + 1] == [b[0]] + b[1..][..k];
        assert LessAt(a, b, k + 1);
      }
      if k: nat :| LessAt(a, b, k) {
        if k > 0 {
          assert a[0] == a[..k][0] && b[0] == b[..k][0];
          assert a[1..][..k - 1] == a[..k][1..] && b[1..][..k - 1] == b[..k][1..];
          assert LessAt(a[1..], b[1..], k - 1);
        }
      }
    }
  }

  // ---------- One text ----------

  lemma {:induction false} TrimEndIsPrefix(t: Text)
    ensures TrimEnd(t) <= t
    ensures |TrimEnd(t)| < |t| ==> IsSpace(t[|TrimEnd(t)|])
    ensures Blank(t[|TrimEnd(t)|..])
    ensures TrimEnd(t) != [] ==> !IsSpace(TrimEnd(t)[|TrimEnd(t)| - 1])
  {
    hide IsSpace, Blank;
    if t != [] && IsSpace(t[|t| - 1]) {
      TrimEndIsPrefix(t[..|t| - 1]);
      var n := |TrimEnd(t)|;
      assert t[n..] == t[..|t| - 1][n..] + [t[|t| - 1]];
      BlankAppend(t[..|t| - 1][n..], t[|t| - 1]);
    } else {
      NothingBlank(t);
    }
  }

  lemma BlankAppend(t: Text, u: CodeUnit)
    requires Blank(t) && IsSpace(u)
    ensures Blank(t + [u])
  {
  }

  lemma NothingBlank(t: Text)
    ensures Blank(t[|t|..])
  {
  }

  /** A text cut where no surrogate pair is cut is as well formed as it was. */
  lemma PrefixWellFormed(t: Text, n: nat)
    requires WellFormed(t) && n <= |t|
    requires n == 0 || n == |t| || !Lead(t[n - 1])
    ensures WellFormed(t[..n])
  {
    var p := t[..n];
    forall i | 0 <= i < |p| && Lead(p[i])
      ensures i + 1 < |p| && Trail(p[i + 1])
    {
      assert Lead(t[i]);
    }
    forall i | 0 <= i < |p| && Trail(p[i])
      ensures 0 < i && Lead(p[i - 1])
    {
      assert Trail(t[i]);
    }
  }

  lemma TrimEndWellFormed(t: Text)
    requires WellFormed(t)
    ensures WellFormed(TrimEnd(t))
  {
    TrimEndIsPrefix(t);
    var n := |TrimEnd(t)|;
    assert 0 < n < |t| ==> !Lead(t[n - 1]) by {
      assert n < |t| ==> !Trail(t[n]);
    }
    PrefixWellFormed(t, n);
  }

  /** The ellipsis counts within the limit, what is before it begins the text, and no surrogate pair is cut. */
  lemma WithEllipsisMeaning(t: Text, max: int)
    requires max >= 1
    ensures 1 <= |WithEllipsis(t, max)| <= max
    ensures WithEllipsis(t, max)[|WithEllipsis(t, max)| - 1] == ELLIPSIS
    ensures WithEllipsis(t, max)[..|WithEllipsis(t, max)| - 1] <= t
    ensures WellFormed(t) ==> WellFormed(WithEllipsis(t, max))
  {
    hide IsSpace, TrimEnd, Blank, WellFormed;
    TrimEndIsPrefix(t);
    var base := TrimEnd(t);
    var cut := CutEnd(base, max);
    if |base| >= max {
      TrimEndIsPrefix(base[..cut]);
    }
    var kept := if |base| + 1 <= max then base else TrimEnd(base[..cut]);
    var result := WithEllipsis(t, max);
    assert result == kept + [ELLIPSIS];
    assert result[..|result| - 1] == kept;
    if WellFormed(t) {
      TrimEndWellFormed(t);
      if |base| >= max {
        CutWellFormed(base, max);
      }
      EllipsisWellFormed(kept);
    }
  }

  /** No more is cut off than the limit asks for, but for white space before the ellipsis and half a surrogate pair. */
  lemma WithEllipsisKeeps(t: Text, max: int)
    requires max >= 1
    ensures forall i :: |WithEllipsis(t, max)| - 1 <= i < |t| && i < max - 2 ==> IsSpace(t[i])
  {
    hide IsSpace, TrimEnd;
    TrimEndIsPrefix(t);
    var base := TrimEnd(t);
    forall i | |WithEllipsis(t, max)| - 1 <= i < |t| && i < max - 2 ensures IsSpace(t[i]) {
      if i >= |base| {
        assert t[i] == t[|base|..][i - |base|];
      } else {
        var cut := CutEnd(base, max);
        var kept := TrimEnd(base[..cut]);
        TrimEndIsPrefix(base[..cut]);
        assert t[i] == base[..cut][|kept|..][i - |kept|];
      }
    }
  }

  /** A cut that would part a surrogate pair is made before it. */
  lemma CutWellFormed(base: Text, max: int)
    requires WellFormed(base) && 1 <= max <= |base|
    ensures WellFormed(TrimEnd(base[..CutEnd(base, max)]))
  {
    hide TrimEnd, WellFormed;
    var cut := CutEnd(base, max);
    if 0 < cut {
      LeadAlone(base, cut);
    }
    PrefixWellFormed(base, cut);
    TrimEndWellFormed(base[..cut]);
  }

  lemma LeadAlone(t: Text, n: nat)
    requires WellFormed(t) && 0 < n < |t|
    ensures Lead(t[n]) ==> !Lead(t[n - 1])
  {
    assert Lead(t[n - 1]) ==> Trail(t[n]);
  }

  lemma EllipsisWellFormed(t: Text)
    requires WellFormed(t)
    ensures WellFormed(t + [ELLIPSIS])
  {
    var r := t + [ELLIPSIS];
    forall i | 0 <= i < |r| && Lead(r[i])
      ensures i + 1 < |r| && Trail(r[i + 1])
    {
      assert Lead(t[i]);
    }
    forall i | 0 <= i < |r| && Trail(r[i])
      ensures 0 < i && Lead(r[i - 1])
    {
      assert Trail(t[i]);
    }
  }

  /** A text is within its limit, whole when it already was, and otherwise its start and the ellipsis. */
  lemma ShortenTextMeaning(t: Text, max: int)
    requires max >= 1
    ensures |ShortenText(t, max)| <= max
    ensures ShortenText(t, max) == t <==> |t| <= max
    ensures WellFormed(t) ==> WellFormed(ShortenText(t, max))
  {
    WithEllipsisMeaning(t, max);
  }

  /** A text has no more code points than code units. */
  lemma {:induction false} CharactersAtMostLength(t: Text)
    ensures Characters(t) <= |t|
  {
    if t != [] {
      if |t| >= 2 && Lead(t[0]) && Trail(t[1]) {
        CharactersAtMostLength(t[2..]);
      } else {
        CharactersAtMostLength(t[1..]);
      }
    }
  }

  lemma {:induction false} TotalCharactersAtMostLengths(ts: seq<Text>)
    ensures TotalCharacters(ts) <= Lengths(ts)
  {
    if ts != [] {
      TotalCharactersAtMostLengths(ts[..|ts| - 1]);
      CharactersAtMostLength(ts[|ts| - 1]);
    }
  }

  // ---------- Texts together ----------

  lemma {:induction false} LengthsAppend(a: seq<Text>, b: seq<Text>)
    ensures Lengths(a + b) == Lengths(a) + Lengths(b)
  {
    if b == [] {
      assert a + b == a;
    } else {
      LengthsAppend(a, b[..|b| - 1]);
      assert (a + b)[..|a + b| - 1] == a + b[..|b| - 1];
    }
  }

  lemma {:induction false} FittingMeaning(ts: seq<Text>, max: int)
    requires max >= 0
    ensures Lengths(ts[..Fitting(ts, max)]) <= max
    ensures Fitting(ts, max) < |ts| ==> Lengths(ts[..Fitting(ts, max)]) + |ts[Fitting(ts, max)]| > max
    ensures Fitting(ts, max) == |ts| <==> Lengths(ts) <= max
  {
    var k := Fitting(ts, max);
    if ts == [] {
    } else {
      assert ts == [ts[0]] + ts[1..];
      LengthsAppend([ts[0]], ts[1..]);
      if |ts[0]| <= max {
        FittingMeaning(ts[1..], max - |ts[0]|);
        assert ts[..k] == [ts[0]] + ts[1..][..k - 1];
        LengthsAppend([ts[0]], ts[1..][..k - 1]);
        if k == |ts| { assert ts[..k] == ts; }
      }
    }
  }

  lemma {:induction false} NonBlankMeaning(ts: seq<Text>)
    ensures forall i :: 0 <= i < |NonBlank(ts)| ==> !Blank(NonBlank(ts)[i])
    ensures forall t :: t in NonBlank(ts) ==> t in ts
  {
    if ts != [] {
      NonBlankMeaning(ts[..|ts| - 1]);
    }
  }

  predicate NoneBlank(ts: seq<Text>) {
    forall i :: 0 <= i < |ts| ==> !Blank(ts[i])
  }

  predicate AllWellFormed(ts: seq<Text>) {
    forall i :: 0 <= i < |ts| ==> WellFormed(ts[i])
  }

  /**
   The paragraphs that come out are within the limit together, none is blank, no surrogate pair is cut, and when what
   is not blank is within the limit nothing is shortened or left out.
   */
  lemma ShortenTextsMeaning(ts: seq<Text>, max: nat)
    ensures Lengths(ShortenTexts(ts, max)) <= max
    ensures ShortenTexts(ts, max) == NonBlank(ts) <==> Lengths(NonBlank(ts)) <= max
    ensures NoneBlank(ShortenTexts(ts, max))
    ensures AllWellFormed(ts) ==> AllWellFormed(ShortenTexts(ts, max))
  {
    var all := NonBlank(ts);
    var k := Fitting(all, max);
    NonBlankMeaning(ts);
    FittingMeaning(all, max);
    if AllWellFormed(ts) {
      forall i | 0 <= i < |all| ensures WellFormed(all[i]) { assert all[i] in ts; }
    }
    if k < |all| {
      CutAtMeaning(all, k, max);
    }
  }

  /**
   Paragraphs that are too long together are cut at one place: those before it are whole, that one is its own beginning
   with the ellipsis, and with it the limit is passed or less than a fragment from it.
   */
  lemma ShortenTextsCut(ts: seq<Text>, max: nat)
    requires 1 <= max < Lengths(NonBlank(ts))
    ensures var all, r := NonBlank(ts), ShortenTexts(ts, max);
            CutShape(all, r) && Lengths(all[..|r|]) > max - SHORTEST_FRAGMENT
  {
    hide WithEllipsis, Blank, CutShape, CutAt, Lengths;
    var all := NonBlank(ts);
    FittingMeaning(all, max);
    NonBlankMeaning(ts);
    CutAtShape(all, Fitting(all, max), max);
  }

  lemma CutAtShape(all: seq<Text>, k: nat, max: nat)
    requires max >= 1 && NoneBlank(all) && k < |all| && Lengths(all[..k]) <= max < Lengths(all[..k]) + |all[k]|
    ensures CutShape(all, CutAt(all, k, max)) && |CutAt(all, k, max)| <= |all|
    ensures Lengths(all[..|CutAt(all, k, max)|]) > max - SHORTEST_FRAGMENT
  {
    hide WithEllipsis, Blank, CutShape, Lengths;
    var left := max - Lengths(all[..k]);
    NothingAtAll();
    if left >= SHORTEST_FRAGMENT || k == 0 {
      CutOne(all, k, left);
      LengthsStep(all, k);
    } else {
      NotEmpty(all[k - 1]);
      CutOne(all, k - 1, |all[k - 1]| + left);
    }
  }

  lemma NothingAtAll()
    ensures Lengths([]) == 0
  {
  }

  /** The first texts whole but for the last of them, which is a beginning and the ellipsis. */
  predicate CutShape(all: seq<Text>, r: seq<Text>) {
    && 1 <= |r| <= |all| && r[..|r| - 1] == all[..|r| - 1]
    && var last := r[|r| - 1];
       last != [] && last[|last| - 1] == ELLIPSIS && last[..|last| - 1] <= all[|r| - 1]
  }

  lemma CutOne(all: seq<Text>, k: nat, room: int)
    requires k < |all| && room >= 1
    ensures WithEllipsis(all[k], room) != [] && CutShape(all, all[..k] + [WithEllipsis(all[k], room)])
  {
    hide WithEllipsis;
    WithEllipsisMeaning(all[k], room);
    var r := all[..k] + [WithEllipsis(all[k], room)];
    assert r[..|r| - 1] == all[..k];
  }

  lemma LengthsStep(ts: seq<Text>, k: nat)
    requires k < |ts|
    ensures Lengths(ts[..k + 1]) == Lengths(ts[..k]) + |ts[k]|
  {
    assert ts[..k + 1][..k] == ts[..k];
  }

  lemma CutAtMeaning(ts: seq<Text>, k: nat, max: int)
    requires k < |ts| && 0 <= Lengths(ts[..k]) <= max < Lengths(ts[..k]) + |ts[k]|
    requires NoneBlank(ts)
    ensures Lengths(CutAt(ts, k, max)) <= max
    ensures NoneBlank(CutAt(ts, k, max))
    ensures AllWellFormed(ts) ==> AllWellFormed(CutAt(ts, k, max))
  {
    hide WithEllipsis, WellFormed, Blank;
    var left := max - Lengths(ts[..k]);
    NothingLeft(ts[k]);
    if left >= SHORTEST_FRAGMENT || k == 0 {
      if left >= 1 {
        WithEllipsisMeaning(ts[k], left);
        ReplaceLast(ts, k, ts[k], left);
      }
    } else {
      assert ts[..k][..k - 1] == ts[..k - 1];
      NotEmpty(ts[k - 1]);
      ReplaceLast(ts, k - 1, ts[k - 1], |ts[k - 1]| + left);
    }
  }

  lemma NotEmpty(t: Text)
    requires !Blank(t)
    ensures t != []
  {
  }

  lemma NothingLeft(t: Text)
    ensures WithEllipsis(t, 0) == []
  {
  }

  lemma ReplaceLast(ts: seq<Text>, k: nat, t: Text, room: int)
    requires k < |ts| && t == ts[k] && room >= 1
    requires NoneBlank(ts)
    ensures Lengths(ts[..k] + [WithEllipsis(t, room)]) <= Lengths(ts[..k]) + room
    ensures NoneBlank(ts[..k] + [WithEllipsis(t, room)])
    ensures AllWellFormed(ts) ==> AllWellFormed(ts[..k] + [WithEllipsis(t, room)])
  {
    var shortened := WithEllipsis(t, room);
    WithEllipsisMeaning(t, room);
    assert !IsSpace(shortened[|shortened| - 1]);
    LengthsAppend(ts[..k], [shortened]);
    assert Lengths([shortened]) == |shortened|;
  }

  // ---------- The loops ----------

  /** `characters` of packages/display/src/parse.ts: the string iterator takes a surrogate pair as one. */
  method CountCharacters(text: Text) returns (count: nat)
    ensures count == Characters(text)
  {
    count := 0;
    var i := 0;
    while i < |text|
      invariant 0 <= i <= |text|
      invariant count + Characters(text[i..]) == Characters(text)
    {
      if i + 1 < |text| && Lead(text[i]) && Trail(text[i + 1]) {
        assert text[i..][2..] == text[i + 2..];
        i := i + 2;
      } else {
        assert text[i..][1..] == text[i + 1..];
        i := i + 1;
      }
      count := count + 1;
    }
  }

  method ShortenTextsLoop(texts: seq<Text>, max: nat) returns (kept: seq<Text>)
    ensures kept == ShortenTexts(texts, max)
  {
    hide Blank, WithEllipsis, ShortenTexts, Lengths, Fitting;
    kept := [];
    var left: int := max;
    AllFits(texts, max);
    for i := 0 to |texts|
      invariant kept == NonBlank(texts[..i])
      invariant left == max - Lengths(kept) && left >= 0
      invariant Fitting(kept, max) == |kept|
    {
      var text := texts[i];
      NonBlankStep(texts, i);
      if Blank(text) {
        continue;
      }
      FittingAppend(kept, text, max);
      if |text| <= left {
        LengthsAppend(kept, [text]);
        LengthOfOne(text);
        kept := kept + [text];
        left := left - |text|;
        continue;
      }
      StopsHere(texts, i, kept, max);
      if left >= SHORTEST_FRAGMENT || |kept| == 0 {
        var fragment := WithEllipsis(text, left);
        if fragment != [] {
          kept := kept + [fragment];
        }
      } else {
        var last := kept[|kept| - 1];
        kept := kept[..|kept| - 1] + [WithEllipsis(last, |last| + left)];
      }
      return;
    }
    assert texts[..|texts|] == texts;
  }

  lemma AllFits(ts: seq<Text>, max: nat)
    ensures Lengths([]) == 0 && Fitting([], max) == 0
    ensures Fitting(NonBlank(ts), max) == |NonBlank(ts)| ==> ShortenTexts(ts, max) == NonBlank(ts)
  {
  }

  lemma LengthOfOne(t: Text)
    ensures Lengths([t]) == |t|
  {
    assert [t][..0] == [];
  }

  lemma NonBlankStep(ts: seq<Text>, i: nat)
    requires i < |ts|
    ensures NonBlank(ts[..i + 1]) == NonBlank(ts[..i]) + (if Blank(ts[i]) then [] else [ts[i]])
  {
    assert ts[..i + 1][..i] == ts[..i];
  }

  lemma StopsHere(ts: seq<Text>, i: nat, kept: seq<Text>, max: nat)
    requires i < |ts| && !Blank(ts[i]) && kept == NonBlank(ts[..i])
    requires Fitting(kept + [ts[i]], max) == |kept|
    ensures |kept| < |NonBlank(ts)| && kept == NonBlank(ts)[..|kept|] && NonBlank(ts)[|kept|] == ts[i]
    ensures ShortenTexts(ts, max) == CutAt(NonBlank(ts), |kept|, max)
    ensures |kept| > 0 ==> NonBlank(ts)[..|kept| - 1] == kept[..|kept| - 1]
  {
    NonBlankStep(ts, i);
    NonBlankPrefix(ts, i + 1);
    FittingStops(kept + [ts[i]], NonBlank(ts), max);
  }

  lemma {:induction false} FittingAppend(ts: seq<Text>, t: Text, max: int)
    requires max >= 0 && Fitting(ts, max) == |ts|
    ensures Fitting(ts + [t], max) == |ts| + (if Lengths(ts) + |t| <= max then 1 else 0)
  {
    if ts != [] {
      assert (ts + [t])[1..] == ts[1..] + [t];
      assert ts == [ts[0]] + ts[1..];
      LengthsAppend([ts[0]], ts[1..]);
      FittingAppend(ts[1..], t, max - |ts[0]|);
    }
  }

  lemma {:induction false} FittingStops(a: seq<Text>, b: seq<Text>, max: int)
    requires a <= b && Fitting(a, max) < |a|
    ensures Fitting(b, max) == Fitting(a, max)
  {
    if |a[0]| <= max {
      FittingStops(a[1..], b[1..], max - |a[0]|);
    }
  }

  lemma {:induction false} NonBlankPrefix(ts: seq<Text>, n: nat)
    requires n <= |ts|
    ensures NonBlank(ts[..n]) <= NonBlank(ts)
    decreases |ts| - n
  {
    if n == |ts| {
      assert ts[..n] == ts;
    } else {
      NonBlankPrefix(ts, n + 1);
      assert ts[..n + 1][..n] == ts[..n];
    }
  }
}
