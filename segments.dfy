/** Splitting a text into the segments BlurText animates.

    Words mode uses JavaScript's `text.split(" ")`: the text is cut at every
    single space, so a leading, trailing or doubled space yields an empty
    segment and the empty text yields one empty segment. Every other mode
    uses `text.split("")`: one segment per character, none for the empty text.
 */
module Segments {

  /** The separator of words mode. */
  const SPACE: char := ' '

  /** `text.split(" ")`. */
  function SplitWords(s: string): (r: seq<string>)
    ensures |r| >= 1
  {
    if s == [] then [[]]
    else
      var rest := SplitWords(s[1..]);
      if s[0] == SPACE then [[]] + rest
      else [[s[0]] + rest[0]] + rest[1..]
  }

  /** `text.split("")`: one single-character segment per character. */
  function SplitChars(s: string): (r: seq<string>)
    ensures |r| == |s|
    ensures forall i :: 0 <= i < |r| ==> r[i] == [s[i]]
  {
    if s == [] then [] else [[s[0]]] + SplitChars(s[1..])
  }

  /** `segs.join(sep)` for a one-character separator. */
  function Join(segs: seq<string>, sep: char): string
  {
    if |segs| == 0 then []
    else if |segs| == 1 then segs[0]
    else segs[0] + [sep] + Join(segs[1..], sep)
  }

  /** `segs.join("")`. */
  function Concat(segs: seq<string>): string
  {
    if segs == [] then [] else segs[0] + Concat(segs[1..])
  }

  /** Number of occurrences of `c` in `s`. */
  function Count(s: string, c: char): nat
  {
    if s == [] then 0 else (if s[0] == c then 1 else 0) + Count(s[1..], c)
  }

  /** `s` with every `from` replaced by `to`. */
  function Replace(s: string, from: char, to: char): (r: string)
    ensures |r| == |s|
    ensures forall i :: 0 <= i < |s| ==> r[i] == if s[i] == from then to else s[i]
  {
    if s == [] then [] else [if s[0] == from then to else s[0]] + Replace(s[1..], from, to)
  }

  /** A word: a segment that holds no separator. */
  predicate IsWord(w: string)
  {
    SPACE !in w
  }

  // ---------------------------------------------------------------------------
  // Words mode

  /** Gluing a character onto the first segment puts it in front of the join. */
  lemma JoinConsFirst(c: char, segs: seq<string>, sep: char)
    requires |segs| >= 1
    ensures Join([[c] + segs[0]] + segs[1..], sep) == [c] + Join(segs, sep)
  {
    var glued := [[c] + segs[0]] + segs[1..];
    assert glued[1..] == segs[1..];
  }

  /** Joining the words of `s` with `sep` is `s` with every space turned into `sep`. */
  lemma {:induction false} JoinSplitWords(s: string, sep: char)
    ensures Join(SplitWords(s), sep) == Replace(s, SPACE, sep)
  {
    if s != [] {
      var rest := SplitWords(s[1..]);
      JoinSplitWords(s[1..], sep);
      if s[0] == SPACE {
        assert ([[]] + rest)[1..] == rest;
      } else {
        JoinConsFirst(s[0], rest, sep);
      }
    }
  }

  /** Replacing a character by itself changes nothing. */
  lemma ReplaceSame(s: string, c: char)
    ensures Replace(s, c, c) == s
  {
  }

  /** Round trip: `text.split(" ").join(" ") === text`. */
  lemma SplitWordsJoin(s: string)
    ensures Join(SplitWords(s), SPACE) == s
  {
    JoinSplitWords(s, SPACE);
    ReplaceSame(s, SPACE);
  }

  /** There is one segment more than there are spaces. */
  lemma {:induction false} SplitWordsCount(s: string)
    ensures |SplitWords(s)| == Count(s, SPACE) + 1
  {
    if s != [] {
      SplitWordsCount(s[1..]);
    }
  }

  /** No segment of words mode contains a space. */
  lemma {:induction false} SplitWordsAreWords(s: string)
    ensures forall i :: 0 <= i < |SplitWords(s)| ==> IsWord(SplitWords(s)[i])
  {
    if s != [] {
      SplitWordsAreWords(s[1..]);
      var rest := SplitWords(s[1..]);
      if s[0] != SPACE {
        assert IsWord([s[0]] + rest[0]);
      }
    }
  }

  /** Splitting a word followed by more text: the word is glued to the
      first segment of the rest. */
  lemma {:induction false} SplitWordsPrefix(w: string, t: string)
    requires IsWord(w)
    ensures SplitWords(w + t) == [w + SplitWords(t)[0]] + SplitWords(t)[1..]
  {
    if w != [] {
      assert (w + t)[1..] == w[1..] + t;
      SplitWordsPrefix(w[1..], t);
      var st := SplitWords(t);
      var rest := SplitWords(w[1..] + t);
      assert w[0] != SPACE;
      assert rest[0] == w[1..] + st[0] && rest[1..] == st[1..];
      assert [w[0]] + (w[1..] + st[0]) == w + st[0];
      assert SplitWords(w + t) == [[w[0]] + rest[0]] + rest[1..];
      assert [[w[0]] + rest[0]] + rest[1..] == [w + st[0]] + st[1..];
    } else {
      var st := SplitWords(t);
      assert w + t == t && w + st[0] == st[0];
      assert st == [st[0]] + st[1..];
    }
  }

  /** A word on its own is its only segment. */
  lemma SplitWordsOfWord(w: string)
    requires IsWord(w)
    ensures SplitWords(w) == [w]
  {
    SplitWordsPrefix(w, []);
    assert w + [] == w;
  }

  /** A word followed by a space is split off as the first segment. */
  lemma SplitWordsCons(w: string, t: string)
    requires IsWord(w)
    ensures SplitWords(w + ([SPACE] + t)) == [w] + SplitWords(t)
  {
    SplitWordsPrefix(w, [SPACE] + t);
    assert ([SPACE] + t)[1..] == t;
    assert w + [] == w;
  }

  /** Round trip the other way: splitting a join of words gives the words back. */
  lemma {:induction false} SplitWordsOfJoin(segs: seq<string>)
    requires |segs| >= 1
    requires forall i :: 0 <= i < |segs| ==> IsWord(segs[i])
    ensures SplitWords(Join(segs, SPACE)) == segs
  {
    if |segs| == 1 {
      SplitWordsPrefix(segs[0], []);
      assert segs[0] + [] == segs[0];
    } else {
      var tail := Join(segs[1..], SPACE);
      SplitWordsOfJoin(segs[1..]);
      assert Join(segs, SPACE) == segs[0] + ([SPACE] + tail);
      SplitWordsPrefix(segs[0], [SPACE] + tail);
      assert ([SPACE] + tail)[1..] == tail;
      var st := SplitWords([SPACE] + tail);
      assert st == [[]] + segs[1..];
      assert segs[0] + st[0] == segs[0];
      assert segs == [segs[0]] + segs[1..];
    }
  }

  /** The first segment is empty exactly when the text is empty or starts with a space. */
  lemma SplitWordsFirstEmpty(s: string)
    ensures SplitWords(s)[0] == [] <==> s == [] || s[0] == SPACE
  {
  }

  /** The last segment is empty exactly when the text is empty or ends with a space. */
  lemma {:induction false} SplitWordsLastEmpty(s: string)
    ensures var r := SplitWords(s); r[|r| - 1] == [] <==> s == [] || s[|s| - 1] == SPACE
  {
    if s != [] {
      var t := s[1..];
      var rest := SplitWords(t);
      SplitWordsLastEmpty(t);
      if t != [] {
        assert s[|s| - 1] == t[|t| - 1];
      }
      if s[0] != SPACE && |rest| == 1 && t != [] && t[|t| - 1] == SPACE {
        SplitWordsCount(t);
        CountPositive(t, |t| - 1, SPACE);
        assert false;
      }
    }
  }

  /** A character that occurs in a text is counted. */
  lemma {:induction false} CountPositive(s: string, k: nat, c: char)
    requires k < |s| && s[k] == c
    ensures Count(s, c) >= 1
  {
    if k > 0 {
      CountPositive(s[1..], k - 1, c);
    }
  }

  // ---------------------------------------------------------------------------
  // Character mode

  /** Round trip: `text.split("").join("") === text`. */
  lemma {:induction false} SplitCharsConcat(s: string)
    ensures Concat(SplitChars(s)) == s
  {
    if s != [] {
      SplitCharsConcat(s[1..]);
      assert SplitChars(s)[1..] == SplitChars(s[1..]);
    }
  }

  /** Round trip the other way: single characters, concatenated and split, come back. */
  lemma {:induction false} SplitCharsOfConcat(segs: seq<string>)
    requires forall i :: 0 <= i < |segs| ==> |segs[i]| == 1
    ensures SplitChars(Concat(segs)) == segs
  {
    if segs != [] {
      SplitCharsOfConcat(segs[1..]);
      var s := Concat(segs);
      assert s[0] == segs[0][0] && s[1..] == Concat(segs[1..]);
      assert [s[0]] == segs[0];
    }
  }
}
