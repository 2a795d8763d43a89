/** BlurText, the hero's text-reveal animation (src/sections/Hero.jsx).

    The component cuts its text into segments, renders one span per segment
    and gives every span the same hidden or revealed style, delayed by the
    span's index times the per-segment delay. Which style applies is decided
    by a single `inView` flag that an intersection observer sets once.
 */
module BlurText {
  import opened Segments

  /** The only value of `animateBy` that splits on spaces; any other splits into characters. */
  const WORDS: string := "words"
  /** The only value of `direction` that makes hidden segments sit above their place. */
  const TOP: string := "top"
  /** What follows every word but the last in words mode. */
  const NBSP: char := '\U{00A0}'

  /** Default props of the component. */
  const DEFAULT_TEXT: string := ""
  const DEFAULT_DELAY: int := 50
  const DEFAULT_ANIMATE_BY: string := WORDS
  const DEFAULT_DIRECTION: string := TOP

  /** The inline style of one span; lengths in px, delay in ms, opacity 0 or 1. */
  datatype Style = Style(blurPx: nat, opacity: nat, translateYPx: int, delayMs: int)

  /** One rendered span: its text (segment plus suffix) and its style. */
  datatype Span = Span(text: string, style: Style)

  /** The memoised segments of `text` for the given mode. */
  function SegmentsOf(text: string, animateBy: string): (r: seq<string>)
    ensures animateBy == WORDS ==> |r| == Count(text, SPACE) + 1 && Join(r, SPACE) == text
    ensures animateBy != WORDS ==> |r| == |text| && Concat(r) == text
    ensures animateBy != WORDS ==> forall i :: 0 <= i < |r| ==> |r[i]| == 1
  {
    if animateBy == WORDS then
      SplitWordsCount(text);
      SplitWordsJoin(text);
      SplitWords(text)
    else
      SplitCharsConcat(text);
      SplitChars(text)
  }

  /** The vertical offset of a hidden segment. */
  function HiddenOffset(direction: string): int
  {
    if direction == TOP then -20 else 20
  }

  /** The style of segment `i`: revealed or hidden, delayed by `i * delay`. */
  function StyleFor(inView: bool, direction: string, i: nat, delay: int): Style
  {
    if inView then Style(0, 1, 0, i * delay)
    else Style(10, 0, HiddenOffset(direction), i * delay)
  }

  /** What follows segment `i` of `count`: a non-breaking space between words, nothing otherwise. */
  function Suffix(animateBy: string, i: nat, count: nat): string
  {
    if animateBy == WORDS && i < count - 1 then [NBSP] else []
  }

  /** The spans the component renders; nothing but `inView` and the props decides them. */
  function Render(text: string, delay: int, animateBy: string, direction: string, inView: bool): (r: seq<Span>)
    ensures |r| == |SegmentsOf(text, animateBy)|
  {
    var segs := SegmentsOf(text, animateBy);
    seq(|segs|, i requires 0 <= i < |segs| =>
      Span(segs[i] + Suffix(animateBy, i, |segs|), StyleFor(inView, direction, i, delay)))
  }

  /** The texts of the spans, in order. */
  function Texts(spans: seq<Span>): (r: seq<string>)
    ensures |r| == |spans|
  {
    if spans == [] then [] else [spans[0].text] + Texts(spans[1..])
  }

  // ---------------------------------------------------------------------------
  // What the rendered text reads

  /** The suffixed segments, concatenated, are the segments joined by a
      non-breaking space in words mode and simply concatenated otherwise. */
  lemma {:induction false} ConcatSuffixed(segs: seq<string>, animateBy: string)
    ensures Concat(seq(|segs|, i requires 0 <= i < |segs| => segs[i] + Suffix(animateBy, i, |segs|)))
         == if animateBy == WORDS then Join(segs, NBSP) else Concat(segs)
  {
    var parts := seq(|segs|, i requires 0 <= i < |segs| => segs[i] + Suffix(animateBy, i, |segs|));
    if |segs| > 0 {
      var tail := segs[1..];
      var tailParts := seq(|tail|, i requires 0 <= i < |tail| => tail[i] + Suffix(animateBy, i, |tail|));
      assert parts[1..] == tailParts;
      ConcatSuffixed(tail, animateBy);
      if |segs| == 1 {
        assert parts[0] == segs[0] + [] == segs[0];
        assert Concat(tail) == [];
      }
    }
  }

  /** The span texts are the segment texts with their suffixes. */
  lemma {:induction false} TextsOfRender(text: string, delay: int, animateBy: string, direction: string, inView: bool)
    ensures var segs := SegmentsOf(text, animateBy);
            (Texts(Render(text, delay, animateBy, direction, inView))
             == seq(|segs|, i requires 0 <= i < |segs| => segs[i] + Suffix(animateBy, i, |segs|)))
  {
    var segs := SegmentsOf(text, animateBy);
    var r := Render(text, delay, animateBy, direction, inView);
    TextsAt(r);
  }

  lemma {:induction false} TextsAt(spans: seq<Span>)
    ensures forall i :: 0 <= i < |spans| ==> Texts(spans)[i] == spans[i].text
  {
    if spans != [] {
      TextsAt(spans[1..]);
    }
  }

  /** In words mode the rendered text is the text with every space turned
      into a non-breaking space; in any other mode it is the text itself. */
  lemma RenderedText(text: string, delay: int, animateBy: string, direction: string, inView: bool)
    ensures Concat(Texts(Render(text, delay, animateBy, direction, inView)))
         == if animateBy == WORDS then Replace(text, SPACE, NBSP) else text
  {
    TextsOfRender(text, delay, animateBy, direction, inView);
    ConcatSuffixed(SegmentsOf(text, animateBy), animateBy);
    if animateBy == WORDS {
      JoinSplitWords(text, NBSP);
    }
  }

  /** Where the non-breaking spaces go: after every word but the last in
      words mode; in any other mode span `i` shows exactly character `i`. */
  lemma NbspPlacement(text: string, delay: int, animateBy: string, direction: string, inView: bool)
    ensures var segs := SegmentsOf(text, animateBy);
            var r := Render(text, delay, animateBy, direction, inView);
            && (animateBy == WORDS ==>
                 && (forall i :: 0 <= i < |r| - 1 ==> r[i].text == segs[i] + [NBSP])
                 && r[|r| - 1].text == segs[|segs| - 1])
            && (animateBy != WORDS ==> forall i :: 0 <= i < |r| ==> r[i].text == [text[i]])
  {
    var segs := SegmentsOf(text, animateBy);
    var r := Render(text, delay, animateBy, direction, inView);
    if animateBy == WORDS {
      assert r[|r| - 1].text == segs[|segs| - 1] + [];
    } else {
      forall i | 0 <= i < |r| ensures r[i].text == [text[i]] {
        assert r[i].text == segs[i] + [];
      }
    }
  }

  // ---------------------------------------------------------------------------
  // Styles and delays

  /** Segment `i` starts `i * delay` ms late: the first at once, and a later
      segment never before an earlier one when the delay is not negative. */
  lemma DelaysStagger(text: string, delay: int, animateBy: string, direction: string, inView: bool)
    ensures var r := Render(text, delay, animateBy, direction, inView);
            && (forall i :: 0 <= i < |r| ==> r[i].style.delayMs == i * delay)
            && (|r| > 0 ==> r[0].style.delayMs == 0)
            && (delay >= 0 ==> forall i, j :: 0 <= i <= j < |r| ==> r[i].style.delayMs <= r[j].style.delayMs)
  {
    var r := Render(text, delay, animateBy, direction, inView);
    if delay >= 0 {
      forall i, j | 0 <= i <= j < |r|
        ensures r[i].style.delayMs <= r[j].style.delayMs
      {
        MulMonotone(i, j, delay);
      }
    }
  }

  lemma MulMonotone(i: nat, j: nat, d: nat)
    requires i <= j
    ensures i * d <= j * d
  {
    assert j * d == i * d + (j - i) * d;
  }

  /** Every span of one component has the same style but for its delay. */
  lemma StylesDifferOnlyInDelay(text: string, delay: int, animateBy: string, direction: string, inView: bool)
    ensures var r := Render(text, delay, animateBy, direction, inView);
            forall i, j :: 0 <= i < |r| && 0 <= j < |r| ==>
              r[i].style.(delayMs := 0) == r[j].style.(delayMs := 0)
  {
  }

  /** Revealed: sharp, opaque, in place, whatever the direction. Hidden:
      blurred by 10px, transparent, 20px above its place when the direction
      is "top" and 20px below otherwise. */
  lemma RevealStyles(text: string, delay: int, animateBy: string, direction: string, other: string)
    ensures var shown := Render(text, delay, animateBy, direction, true);
            && shown == Render(text, delay, animateBy, other, true)
            && forall i :: 0 <= i < |shown| ==>
                 shown[i].style.blurPx == 0 && shown[i].style.opacity == 1 && shown[i].style.translateYPx == 0
    ensures var hidden := Render(text, delay, animateBy, direction, false);
            forall i :: 0 <= i < |hidden| ==>
              && hidden[i].style.blurPx == 10 && hidden[i].style.opacity == 0
              && (hidden[i].style.translateYPx < 0 <==> direction == TOP)
              && (hidden[i].style.translateYPx == 20 || hidden[i].style.translateYPx == -20)
  {
  }

  // ---------------------------------------------------------------------------
  // The one-shot reveal

  /** One call of the observer's callback with a batch of entries (each
      `true` when that entry is intersecting). The callback destructures
      `[entry]`, so it reads the first entry only and ignores the rest; an
      empty batch would make it throw before it sets anything. */
  function AfterCall(inView: bool, batch: seq<bool>): bool
  {
    inView || (|batch| > 0 && batch[0])
  }

  /** The `inView` flag after the observer has made the given calls,
      starting from `inView`. */
  function Observe(inView: bool, calls: seq<seq<bool>>): bool
    decreases |calls|
  {
    if calls == [] then inView else Observe(AfterCall(inView, calls[0]), calls[1..])
  }

  /** Once revealed, always revealed: no sequence of calls sets the flag back. */
  lemma {:induction false} ObserveKeepsReveal(calls: seq<seq<bool>>)
    ensures Observe(true, calls)
  {
    if calls != [] {
      ObserveKeepsReveal(calls[1..]);
    }
  }

  /** Starting hidden, the flag is set exactly when some call's first entry
      was intersecting. */
  lemma {:induction false} ObserveReveals(calls: seq<seq<bool>>)
    ensures Observe(false, calls) <==> exists k :: 0 <= k < |calls| && |calls[k]| > 0 && calls[k][0]
  {
    if calls != [] {
      if |calls[0]| > 0 && calls[0][0] {
        ObserveKeepsReveal(calls[1..]);
      } else {
        ObserveReveals(calls[1..]);
        if exists k :: 0 <= k < |calls| && |calls[k]| > 0 && calls[k][0] {
          var k :| 0 <= k < |calls| && |calls[k]| > 0 && calls[k][0];
          assert calls[1..][k - 1] == calls[k];
        }
      }
    }
  }

  /** Only the first entry of a batch counts: an intersecting entry behind a
      non-intersecting one reveals nothing. */
  lemma LaterEntriesIgnored(inView: bool, batch: seq<bool>)
    requires |batch| > 0
    ensures AfterCall(inView, batch) == AfterCall(inView, [batch[0]])
    ensures !Observe(false, [[false, true]])
  {
  }

  /** Later calls never undo a reveal that earlier calls caused. */
  lemma {:induction false} ObserveOneShot(inView: bool, calls: seq<seq<bool>>, more: seq<seq<bool>>)
    decreases |calls|
    ensures Observe(inView, calls + more) == Observe(Observe(inView, calls), more)
    ensures Observe(inView, calls) ==> Observe(inView, calls + more)
  {
    if calls != [] {
      assert (calls + more)[1..] == calls[1..] + more;
      ObserveOneShot(AfterCall(inView, calls[0]), calls[1..], more);
    } else {
      assert calls + more == more;
    }
    if Observe(inView, calls) {
      ObserveKeepsReveal(more);
    }
  }

  /** A mounted BlurText: its props and its one piece of state. */
  class View {
    const text: string
    const delay: int
    const animateBy: string
    const direction: string
    var inView: bool

    /** Mounting: the flag starts false, so every span is hidden. */
    constructor (text: string, delay: int, animateBy: string, direction: string)
      ensures this.text == text && this.delay == delay
      ensures this.animateBy == animateBy && this.direction == direction
      ensures !inView
    {
      this.text := text;
      this.delay := delay;
      this.animateBy := animateBy;
      this.direction := direction;
      inView := false;
    }

    /** The observer's callback for one batch of entries: set the flag when
        the first entry is intersecting, otherwise leave it as it is. */
    method OnEntries(batch: seq<bool>)
      modifies this
      ensures inView <==> old(inView) || (|batch| > 0 && batch[0])
      ensures inView == Observe(old(inView), [batch])
    {
      if |batch| > 0 {
        var entry := batch[0];
        if entry {
          inView := true;
        }
      }
    }

    /** What the component shows now. */
    function Spans(): (r: seq<Span>)
      reads this
      ensures |r| == |SegmentsOf(text, animateBy)|
    {
      Render(text, delay, animateBy, direction, inView)
    }
  }

  // ---------------------------------------------------------------------------
  // The hero's call sites

  /** "A Developer Dedicated to Crafting " ends with a space, so its last
      word segment is empty, and the span before it still gets a
      non-breaking space. The text is a parameter fixed by the requires, so
      that the split is proved word by word rather than by unfolding it on
      the literal. */
  lemma CraftingCallSite(text: string, inView: bool)
    requires text == "A Developer Dedicated to Crafting "
    ensures SplitWords(text) == ["A", "Developer", "Dedicated", "to", "Crafting", ""]
    ensures var r := Render(text, 150, WORDS, TOP, inView);
            |r| == 6 && r[4].text == "Crafting" + [NBSP] && r[5].text == ""
  {
    CraftingText();
    SplitSixWords("A", "Developer", "Dedicated", "to", "Crafting", "");
    var segs := SegmentsOf(text, WORDS);
    assert segs == ["A", "Developer", "Dedicated", "to", "Crafting", ""];
    NbspPlacement(text, 150, WORDS, TOP, inView);
  }

  /** The call site's text, spelled out word by word. */
  lemma CraftingText()
    ensures "A" + ([SPACE] + ("Developer" + ([SPACE] + ("Dedicated" + ([SPACE] + ("to" + ([SPACE] + ("Crafting" + ([SPACE] + ""))))))))) == "A Developer Dedicated to Crafting "
  {
  }

  /** Six words separated by single spaces split into exactly those words. */
  lemma SplitSixWords(a: string, b: string, c: string, d: string, e: string, f: string)
    requires IsWord(a) && IsWord(b) && IsWord(c) && IsWord(d) && IsWord(e) && IsWord(f)
    ensures SplitWords(a + ([SPACE] + (b + ([SPACE] + (c + ([SPACE] + (d + ([SPACE] + (e + ([SPACE] + f))))))))))
         == [a, b, c, d, e, f]
  {
    SplitWordsOfWord(f);
    SplitWordsCons(e, f);
    SplitWordsCons(d, e + ([SPACE] + f));
    SplitWordsCons(c, d + ([SPACE] + (e + ([SPACE] + f))));
    SplitWordsCons(b, c + ([SPACE] + (d + ([SPACE] + (e + ([SPACE] + f))))));
    SplitWordsCons(a, b + ([SPACE] + (c + ([SPACE] + (d + ([SPACE] + (e + ([SPACE] + f))))))));
  }

  /** " web-applications" starts with a space, so its first segment is empty. */
  lemma WebApplicationsCallSite(text: string)
    requires text == " web-applications"
    ensures SplitWords(text) == ["", "web-applications"]
  {
    assert "" + ([SPACE] + "web-applications") == text;
    SplitWordsOfWord("web-applications");
    SplitWordsCons("", "web-applications");
  }

  /** With the default props the component renders one empty span, because
      splitting the empty text on spaces yields one empty segment. */
  lemma DefaultPropsRenderOneEmptySpan(inView: bool)
    ensures Render(DEFAULT_TEXT, DEFAULT_DELAY, DEFAULT_ANIMATE_BY, DEFAULT_DIRECTION, inView)
         == [Span("", StyleFor(inView, TOP, 0, 50))]
  {
    var r := Render(DEFAULT_TEXT, DEFAULT_DELAY, DEFAULT_ANIMATE_BY, DEFAULT_DIRECTION, inView);
    assert SegmentsOf(DEFAULT_TEXT, WORDS) == [[]];
    assert |r| == 1;
    assert r[0] == Span([] + Suffix(WORDS, 0, 1), StyleFor(inView, TOP, 0, 50));
    assert r == [r[0]];
    assert Suffix(WORDS, 0, 1) == [];
    assert r[0].text == "";
    assert r[0].style == StyleFor(inView, TOP, 0, 50);
  }
}
