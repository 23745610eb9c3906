/**
 The removable suffixes as the language of a regular expression: optional space,
 an open bracket, optional words, a keyword, anything up to the first closing
 bracket, and optional space to the end.
 */
module TitleGrammar {
  import opened Text
  import opened TitleParser

  predicate AllSpace(s: string) {
    forall i :: 0 <= i < |s| ==> RegexSpace(s[i])
  }

  predicate NeverCloses(s: string) {
    forall i :: 0 <= i < |s| ==> !Closes(s[i])
  }

  /** The word, in any case. */
  predicate IsWord(s: string, word: string) {
    |s| == |word| && StartsWith(s, word)
  }

  /** Nothing, or the word and space after it. */
  predicate Optional(s: string, word: string) {
    s == "" || (|word| < |s| && IsWord(s[..|word|], word) && AllSpace(s[|word|..]))
  }

  predicate LyricWord(s: string) { IsWord(s, "lyric") || IsWord(s, "lyrics") }

  ghost predicate Keyword(s: string) {
    || IsWord(s, "video") || IsWord(s, "audio") || IsWord(s, "visualiser") || IsWord(s, "visualizer")
    || IsWord(s, "live") || LyricWord(s)
    || exists m, n :: 0 <= m < n <= |s| && LyricWord(s[..m]) && AllSpace(s[m..n]) && IsWord(s[n..], "video")
  }

  /** The parts of a suffix, in order. */
  datatype Parts = Parts(before: string, open: char, official: string, music: string, keyword: string, more: string,
                         close: char, after: string)

  function Joined(p: Parts): string {
    p.before + [p.open] + (p.official + (p.music + (p.keyword + p.more + [p.close] + p.after)))
  }

  ghost predicate Matches(p: Parts) {
    && AllSpace(p.before) && Opens(p.open)
    && Optional(p.official, "official") && Optional(p.music, "music") && Keyword(p.keyword)
    && NeverCloses(p.more) && Closes(p.close) && AllSpace(p.after)
  }

  // ----- a match is a suffix -----

  lemma {:induction false} SkipOver(space: string, rest: string)
    requires AllSpace(space) && (rest == [] || !RegexSpace(rest[0]))
    ensures SkipSpaces(space + rest) == rest
    decreases |space|
  {
    if space == [] {
      assert space + rest == rest;
    } else {
      assert (space + rest)[1..] == space[1..] + rest;
      SkipOver(space[1..], rest);
    }
  }

  lemma SkipWordOver(s: string, word: string, rest: string)
    requires Optional(s, word) && rest != [] && !RegexSpace(rest[0]) && !StartsWith(rest, word)
    ensures SkipWord(s + rest, word) == rest
  {
    if s == "" {
      assert s + rest == rest;
    } else {
      var n := |word|;
      assert forall i :: 0 <= i < n ==> (s + rest)[i] == s[..n][i];
      assert (s + rest)[n] == s[n..][0];
      assert (s + rest)[n..] == s[n..] + rest;
      SkipOver(s[n..], rest);
    }
  }

  lemma {:induction false} ClosesAfter(s: string, close: char, after: string)
    requires NeverCloses(s) && Closes(close) && AllSpace(after)
    ensures ClosesAtEnd(s + [close] + after)
    decreases |s|
  {
    var all := s + [close] + after;
    if s == [] {
      assert all[1..] == after && after + [] == after;
      SkipOver(after, []);
    } else {
      assert all[1..] == s[1..] + [close] + after;
      ClosesAfter(s[1..], close, after);
    }
  }

  lemma WordHasNoClose(s: string, word: string)
    requires StartsWith(s, word) && forall i :: 0 <= i < |word| ==> 'a' <= word[i] <= 'z'
    ensures forall i :: 0 <= i < |word| ==> !Closes(s[i]) && !RegexSpace(s[i])
  {
    forall i | 0 <= i < |word| ensures !Closes(s[i]) && !RegexSpace(s[i]) {
      assert Fold(s[i]) == word[i];
    }
  }

  lemma LyricStarts(s: string)
    requires LyricWord(s)
    ensures StartsWith(s, "lyric") && NeverCloses(s)
  {
    var word := if IsWord(s, "lyric") then "lyric" else "lyrics";
    WordHasNoClose(s, word);
    assert word[..5] == "lyric";
  }

  /** What a keyword begins with, which no optional word does. */
  lemma KeywordStarts(s: string)
    requires Keyword(s)
    ensures HasKeyword(s) && NeverCloses(s) && s != []
    ensures !RegexSpace(s[0]) && Fold(s[0]) != 'o' && Fold(s[0]) != 'm'
  {
    if IsWord(s, "video") {
      WordHasNoClose(s, "video");
    } else if IsWord(s, "audio") {
      WordHasNoClose(s, "audio");
    } else if IsWord(s, "visualiser") {
      WordHasNoClose(s, "visualiser");
    } else if IsWord(s, "visualizer") {
      WordHasNoClose(s, "visualizer");
    } else if IsWord(s, "live") {
      WordHasNoClose(s, "live");
    } else if LyricWord(s) {
      LyricStarts(s);
    } else {
      LyricVideoStarts(s);
    }
  }

  lemma LyricVideoStarts(s: string)
    requires exists m, n :: 0 <= m < n <= |s| && LyricWord(s[..m]) && AllSpace(s[m..n]) && IsWord(s[n..], "video")
    ensures StartsWith(s, "lyric") && NeverCloses(s)
  {
    var m, n :| 0 <= m < n <= |s| && LyricWord(s[..m]) && AllSpace(s[m..n]) && IsWord(s[n..], "video");
    LyricStarts(s[..m]);
    WordHasNoClose(s[n..], "video");
    forall i | 0 <= i < |s| ensures !Closes(s[i]) {
      assert s[i] == if i < m then s[..m][i] else if i < n then s[m..n][i - m] else s[n..][i - n];
    }
    assert forall i :: 0 <= i < m ==> s[i] == s[..m][i];
  }

  lemma KeywordGoesOn(s: string, rest: string)
    requires HasKeyword(s)
    ensures HasKeyword(s + rest)
  {
    assert forall i :: 0 <= i < |s| ==> (s + rest)[i] == s[i];
  }

  lemma MusicStarts(s: string, rest: string)
    requires Optional(s, "music") && rest != [] && !RegexSpace(rest[0]) && Fold(rest[0]) != 'o'
    ensures !RegexSpace((s + rest)[0]) && !StartsWith(s + rest, "official")
  {
    if s != "" {
      assert Fold(s[..5][0]) == 'm';
      assert (s + rest)[0] == s[..5][0];
    } else {
      assert s + rest == rest;
    }
  }

  function Tail(p: Parts): string {
    p.keyword + p.more + [p.close] + p.after
  }

  lemma TailHasKeyword(p: Parts)
    requires Keyword(p.keyword) && NeverCloses(p.more) && Closes(p.close) && AllSpace(p.after)
    ensures Tail(p) != [] && !RegexSpace(Tail(p)[0]) && Fold(Tail(p)[0]) != 'o' && Fold(Tail(p)[0]) != 'm'
    ensures HasKeyword(Tail(p)) && ClosesAtEnd(Tail(p))
  {
    KeywordStarts(p.keyword);
    KeywordGoesOn(p.keyword, p.more + [p.close] + p.after);
    hide Keyword, HasKeyword, ClosesAtEnd;
    assert p.keyword + (p.more + [p.close] + p.after) == Tail(p) && Tail(p)[0] == p.keyword[0];
    ClosesAfter(p.keyword + p.more, p.close, p.after);
  }

  lemma WordsAreSkipped(official: string, music: string, tail: string)
    requires Optional(official, "official") && Optional(music, "music")
    requires tail != [] && !RegexSpace(tail[0]) && Fold(tail[0]) != 'o' && Fold(tail[0]) != 'm'
    ensures SkipWord(SkipWord(official + (music + tail), "official"), "music") == tail
  {
    SkipWordOver(music, "music", tail);
    MusicStarts(music, tail);
    hide Optional, SkipWord;
    SkipWordOver(official, "official", music + tail);
  }

  lemma MatchIsSuffix(p: Parts)
    requires Matches(p)
    ensures IsSuffix(Joined(p))
  {
    hide Keyword, Optional, SkipWord, HasKeyword, ClosesAtEnd, Tail, AllSpace, NeverCloses;
    TailHasKeyword(p);
    WordsAreSkipped(p.official, p.music, Tail(p));
    var inner := p.official + (p.music + Tail(p));
    SkipOver(p.before, [p.open] + inner);
    JoinedIs(p);
    assert ([p.open] + inner)[1..] == inner;
  }

  lemma JoinedIs(p: Parts)
    ensures Joined(p) == p.before + ([p.open] + (p.official + (p.music + Tail(p))))
  {
  }

  // ----- a suffix is a match -----

  lemma {:induction false} SpaceBefore(s: string) returns (space: string)
    ensures AllSpace(space) && s == space + SkipSpaces(s)
    decreases |s|
  {
    if s != [] && RegexSpace(s[0]) {
      var rest := SpaceBefore(s[1..]);
      assert s == [s[0]] + s[1..];
      space := [s[0]] + rest;
    } else {
      space := [];
    }
  }

  lemma WordBefore(s: string, word: string) returns (opt: string)
    requires word != ""
    ensures Optional(opt, word) && s == opt + SkipWord(s, word)
  {
    var n := |word|;
    opt := "";
    if StartsWith(s, word) && n < |s| && RegexSpace(s[n]) {
      var space := SpaceBefore(s[n..]);
      assert s[n..][0] == s[n];
      SkipsSome(s[n..]);
      opt := s[..n] + space;
      assert opt[..n] == s[..n] && opt[n..] == space;
    }
  }

  lemma SkipsSome(s: string)
    requires s != [] && RegexSpace(s[0])
    ensures |SkipSpaces(s)| < |s|
  {
  }

  lemma {:induction false} CloseIn(s: string) returns (inside: string, close: char, after: string)
    requires ClosesAtEnd(s)
    ensures s == inside + [close] + after && NeverCloses(inside) && Closes(close) && AllSpace(after)
    decreases |s|
  {
    if Closes(s[0]) {
      inside, close, after := [], s[0], s[1..];
      var space := SpaceBefore(after);
      assert space + [] == space;
    } else {
      inside, close, after := CloseIn(s[1..]);
      inside := [s[0]] + inside;
    }
  }

  lemma KeywordIn(s: string) returns (n: nat)
    requires HasKeyword(s)
    ensures n <= |s| && Keyword(s[..n]) && forall i :: 0 <= i < n ==> !Closes(s[i])
  {
    var word := if StartsWith(s, "video") then "video" else if StartsWith(s, "audio") then "audio"
      else if StartsWith(s, "visualiser") then "visualiser" else if StartsWith(s, "visualizer") then "visualizer"
      else if StartsWith(s, "lyric") then "lyric" else "live";
    n := |word|;
    WordHasNoClose(s, word);
    assert forall i :: 0 <= i < n ==> s[..n][i] == s[i];
    assert IsWord(s[..n], word);
  }

  /** The keyword, what follows it inside the bracket, and the end. */
  lemma TailParts(tail: string) returns (keyword: string, more: string, close: char, after: string)
    requires HasKeyword(tail) && ClosesAtEnd(tail)
    ensures Keyword(keyword) && NeverCloses(more) && Closes(close) && AllSpace(after)
    ensures tail == keyword + more + [close] + after
  {
    var n := KeywordIn(tail);
    var inside;
    inside, close, after := CloseIn(tail);
    hide Keyword, HasKeyword, ClosesAtEnd;
    assert tail[|inside|] == close && n <= |inside|;
    keyword, more := tail[..n], inside[n..];
    assert tail[..n] == inside[..n];
  }

  lemma SuffixIsMatch(s: string) returns (p: Parts)
    requires IsSuffix(s)
    ensures Matches(p) && Joined(p) == s
  {
    hide Keyword, Optional, SkipWord, HasKeyword, ClosesAtEnd, SkipSpaces, AllSpace, NeverCloses, Opens;
    var before := SpaceBefore(s);
    var t := SkipSpaces(s);
    var official := WordBefore(t[1..], "official");
    var named := SkipWord(t[1..], "official");
    var music := WordBefore(named, "music");
    var keyword, more, close, after := TailParts(SkipWord(named, "music"));
    p := Parts(before, t[0], official, music, keyword, more, close, after);
    JoinedIs(p);
    assert t == [t[0]] + t[1..];
  }

  /** A text is a removable suffix exactly if it matches the pattern. */
  lemma SuffixesAreMatches(s: string)
    ensures IsSuffix(s) <==> exists p :: Matches(p) && Joined(p) == s
  {
    if IsSuffix(s) {
      var p := SuffixIsMatch(s);
    }
    if p :| Matches(p) && Joined(p) == s {
      MatchIsSuffix(p);
    }
  }

  /** Stripping cuts off the longest ending that is a removable suffix, if there is one. */
  lemma {:induction false} StripCutsLongest(s: string)
    ensures var n := |Strip(s)|;
      && Strip(s) == s[..n] && (n < |s| ==> IsSuffix(s[n..]))
      && forall k :: 0 <= k < n ==> !IsSuffix(s[k..])
    decreases |s|
  {
    hide IsSuffix;
    if s != [] {
      StripCutsLongest(s[1..]);
      assert s[0..] == s && forall k :: 1 <= k <= |s| ==> s[k..] == s[1..][k - 1..];
    }
  }

  // ----- cutting -----

  /** The first such dash between blanks is at k and leaves two parts that are not blank. */
  predicate Splits(s: string, dash: char, k: int, parts: (string, string)) {
    && At(s, [' ', dash, ' '], k) && (forall j :: 0 <= j < k ==> !At(s, [' ', dash, ' '], j))
    && parts == (Trim(s[..k]), Trim(s[k + 3..])) && parts.0 != "" && parts.1 != ""
  }

  ghost predicate SplitsInto(s: string, dash: char, parts: (string, string)) {
    exists k :: Splits(s, dash, k, parts)
  }

  ghost predicate StaysWhole(s: string, dash: char) {
    forall k, parts :: !Splits(s, dash, k, parts)
  }

  lemma CutAtSplits(s: string, dash: char)
    ensures match CutAt(s, [' ', dash, ' '])
      case Some(parts) => SplitsInto(s, dash, parts)
      case None => StaysWhole(s, dash)
  {
    hide Trim;
    var found := IndexOf(s, [' ', dash, ' ']);
    if found.Some? {
      var k := found.value;
      forall j | 0 <= j && At(s, [' ', dash, ' '], j) && forall i :: 0 <= i < j ==> !At(s, [' ', dash, ' '], i)
        ensures j == k {}
      if CutAt(s, [' ', dash, ' ']).Some? {
        assert Splits(s, dash, k, CutAt(s, [' ', dash, ' ']).value);
      }
    }
  }

  /** The cut is at the first kind of dash, of the three in their order, that leaves two parts, if there is one. */
  lemma CutGoesByDash(s: string)
    ensures var hyphen, en, em := '-', '\U{2013}', '\U{2014}';
      || SplitsInto(s, hyphen, Cut(s))
      || (StaysWhole(s, hyphen) && SplitsInto(s, en, Cut(s)))
      || (StaysWhole(s, hyphen) && StaysWhole(s, en) && SplitsInto(s, em, Cut(s)))
      || (StaysWhole(s, hyphen) && StaysWhole(s, en) && StaysWhole(s, em) && Cut(s) == ("", s))
  {
    hide CutAt, SplitsInto, StaysWhole;
    CutAtSplits(s, '-');
    CutAtSplits(s, '\U{2013}');
    CutAtSplits(s, '\U{2014}');
    assert [' ', '-', ' '] == HYPHEN && [' ', '\U{2013}', ' '] == EN_DASH && [' ', '\U{2014}', ' '] == EM_DASH;
  }
}
