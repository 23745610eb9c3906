/**
 Artist and title from the title of a stream or video: blanks are collapsed,
 removable suffixes such as "(Official Video)" are stripped until none is left,
 and the rest is cut at the first dash that leaves two parts.
 */
module TitleParser {
  import opened Wrappers
  import opened Text

  datatype Hint = Hint(artist: string, title: string, raw: string)

  // ----- the removable suffix -----

  /** `\s` of the regular expression. */
  predicate RegexSpace(c: char) {
    c == ' ' || c == '\t' || c == '\n' || c == '\U{0C}' || c == '\r'
  }

  predicate Opens(c: char) { c == '[' || c == '(' }

  predicate Closes(c: char) { c == ']' || c == ')' }

  /** Case folding of the letters that matter, with the two non-ASCII characters that fold to ASCII. */
  function Fold(c: char): char {
    if 'A' <= c <= 'Z' then (c as int + 32) as char
    else if c == '\U{017F}' then 's'
    else if c == '\U{212A}' then 'k'
    else c
  }

  predicate StartsWith(s: string, word: string) {
    |word| <= |s| && forall i :: 0 <= i < |word| ==> Fold(s[i]) == word[i]
  }

  function SkipSpaces(s: string): (r: string)
    ensures |r| <= |s|
  {
    if s != [] && RegexSpace(s[0]) then SkipSpaces(s[1..]) else s
  }

  /** An optional word followed by space. */
  function SkipWord(s: string, word: string): string {
    if StartsWith(s, word) && |word| < |s| && RegexSpace(s[|word|]) then SkipSpaces(s[|word|..]) else s
  }

  predicate HasKeyword(s: string) {
    StartsWith(s, "video") || StartsWith(s, "audio") || StartsWith(s, "visualiser") || StartsWith(s, "visualizer")
    || StartsWith(s, "lyric") || StartsWith(s, "live")
  }

  /** No closing bracket before one that only space follows. */
  predicate ClosesAtEnd(s: string) {
    s != [] && if Closes(s[0]) then SkipSpaces(s[1..]) == [] else ClosesAtEnd(s[1..])
  }

  predicate Bracketed(s: string) {
    var t := SkipWord(SkipWord(s, "official"), "music");
    HasKeyword(t) && ClosesAtEnd(t)
  }

  /** The whole of `s` is a removable suffix. */
  predicate IsSuffix(s: string) {
    var t := SkipSpaces(s);
    t != [] && Opens(t[0]) && Bracketed(t[1..])
  }

  /** Removes the leftmost, longest suffix that is removable. */
  function Strip(s: string): (r: string)
    ensures r <= s
  {
    if s == [] then []
    else if IsSuffix(s) then []
    else [s[0]] + Strip(s[1..])
  }

  function Shorter(s: string): (r: string)
    ensures |r| <= |s|
    ensures |r| == |s| ==> r == s
  {
    Trim(Strip(s))
  }

  /** Strips until nothing is removable. */
  function Clean(s: string): (r: string)
    ensures Shorter(r) == r
    decreases |s|
  {
    if Shorter(s) == s then s else Clean(Shorter(s))
  }

  // ----- cutting -----

  predicate At(s: string, separator: string, k: int) {
    0 <= k <= |s| - |separator| && s[k..k + |separator|] == separator
  }

  lemma TailSlice(s: string, j: int, k: int)
    requires 1 <= j <= k <= |s|
    ensures s[j..k] == s[1..][j - 1..k - 1]
  {
    var slice, tail := s[j..k], s[1..];
    assert |slice| == |tail[j - 1..k - 1]|;
    forall i | 0 <= i < |slice| ensures slice[i] == tail[j - 1..k - 1][i] {
      assert slice[i] == s[j + i] == tail[j - 1 + i];
    }
  }

  /** The first occurrence. */
  function IndexOf(s: string, separator: string): (k: Option<nat>)
    ensures k.Some? ==> At(s, separator, k.value) && forall j :: 0 <= j < k.value ==> !At(s, separator, j)
    ensures k.None? ==> forall j :: !At(s, separator, j)
  {
    if |s| < |separator| then None
    else if s[..|separator|] == separator then Some(0)
    else
      var rest := IndexOf(s[1..], separator);
      assert forall j :: 1 <= j <= |s| - |separator| ==> (At(s, separator, j) <==> At(s[1..], separator, j - 1)) by {
        forall j | 1 <= j <= |s| - |separator| ensures At(s, separator, j) <==> At(s[1..], separator, j - 1) {
          TailSlice(s, j, j + |separator|);
        }
      }
      if rest.Some? then Some(rest.value + 1) else None
  }

  const HYPHEN := " - "
  const EN_DASH := " \U{2013} "
  const EM_DASH := " \U{2014} "

  /** The parts around the first separator, if both are visible. */
  function CutAt(s: string, separator: string): Option<(string, string)> {
    match IndexOf(s, separator)
    case None => None
    case Some(k) =>
      var artist, title := Trim(s[..k]), Trim(s[k + |separator|..]);
      if artist != "" && title != "" then Some((artist, title)) else None
  }

  function Cut(s: string): (string, string) {
    match CutAt(s, HYPHEN)
    case Some(parts) => parts
    case None => match CutAt(s, EN_DASH)
      case Some(parts) => parts
      case None => match CutAt(s, EM_DASH)
        case Some(parts) => parts
        case None => ("", s)
  }

  function Normal(raw: string): string { Trim(Join(Fields(raw))) }

  function Parsed(raw: string): Hint {
    var parts := Cut(Clean(Normal(raw)));
    Hint(parts.0, parts.1, Trim(raw))
  }

  method ParseTitle(raw: string) returns (hint: Hint)
    ensures hint == Parsed(raw)
  {
    hide Strip, Trim, Fields, Join, IndexOf;
    var cleaned := Trim(Join(Fields(raw)));
    while true
      invariant Clean(cleaned) == Clean(Normal(raw))
      decreases |cleaned|
    {
      var next := Trim(Strip(cleaned));
      assert next == Shorter(cleaned);
      if next == cleaned {
        break;
      }
      cleaned := next;
    }
    var separators := [HYPHEN, EN_DASH, EM_DASH];
    for i := 0 to |separators|
      invariant forall k :: 0 <= k < i ==> CutAt(cleaned, separators[k]).None?
    {
      var k := IndexOf(cleaned, separators[i]);
      if k.Some? {
        var artist, title := Trim(cleaned[..k.value]), Trim(cleaned[k.value + |separators[i]|..]);
        if artist != "" && title != "" {
          assert CutAt(cleaned, separators[i]) == Some((artist, title));
          assert forall k :: 0 <= k < i ==> CutAt(cleaned, separators[k]).None?;
          assert i > 0 ==> separators[0] == HYPHEN;
          assert i > 1 ==> separators[1] == EN_DASH;
          return Hint(artist, title, Trim(raw));
        }
      }
    }
    assert separators[0] == HYPHEN && separators[1] == EN_DASH && separators[2] == EM_DASH;
    return Hint("", cleaned, Trim(raw));
  }

  // ----- printing and parsing back -----

  function Printed(artist: string, title: string): string { artist + HYPHEN + title }

  predicate Visible(s: string) { s != "" && Collapsed(s) }

  /** The artist cannot be cut early: no separator in it, nor the beginning of one at its end. */
  predicate Uncut(artist: string) {
    && (forall j :: 0 <= j <= |artist| ==> !At(artist, HYPHEN, j))
    && !At(artist, " -", |artist| - 2)
  }

  lemma PrintedIsCollapsed(artist: string, title: string)
    requires Visible(artist) && Visible(title)
    ensures Collapsed(Printed(artist, title))
  {
    var s := Printed(artist, title);
    hide IsSpace;
    var n := |artist|;
    assert s[n] == ' ' && s[n + 1] == '-' && s[n + 2] == ' ';
    assert forall i :: 0 <= i < n ==> s[i] == artist[i];
    assert forall i :: n + 3 <= i < |s| ==> s[i] == title[i - n - 3];
    assert !IsSpace('-') && IsSpace(' ') by { DashIsVisible(); }
  }

  lemma DashIsVisible()
    ensures !IsSpace('-') && IsSpace(' ') && !IsSpace('\U{2013}') && !IsSpace('\U{2014}')
  {
  }

  /** The first separator of a printed pair is at the end of the artist exactly if the artist is uncut. */
  lemma FirstHyphen(artist: string, title: string)
    requires Visible(artist) && Visible(title)
    ensures var k := IndexOf(Printed(artist, title), HYPHEN);
      k.Some? && 0 < k.value <= |artist| && (k.value == |artist| <==> Uncut(artist))
  {
    hide IsSpace, At;
    DashIsVisible();
    var s, n := Printed(artist, title), |artist|;
    assert forall i :: 0 <= i < n ==> s[i] == artist[i];
    assert s[n] == ' ' && s[n + 1] == '-' && s[n + 2] == ' ';
    SeparatorAt(s, '-', n);
    SeparatorAt(s, '-', 0);
    forall j | 0 <= j <= n ensures At(artist, HYPHEN, j) ==> At(s, HYPHEN, j) {
      SeparatorAt(s, '-', j);
      SeparatorAt(artist, '-', j);
    }
    forall j | 0 <= j < n ensures At(s, HYPHEN, j) ==> At(artist, HYPHEN, j) || (j == n - 2 && At(artist, " -", j)) {
      SeparatorAt(s, '-', j);
      SeparatorAt(artist, '-', j);
      EndingAt(artist, j);
    }
    SeparatorAt(s, '-', n - 2);
    SeparatorAt(artist, '-', n);
    EndingAt(artist, n - 2);
  }

  /** An occurrence of a separator, character by character. */
  lemma SeparatorAt(s: string, dash: char, j: int)
    ensures At(s, [' ', dash, ' '], j) <==> 0 <= j <= |s| - 3 && s[j] == ' ' && s[j + 1] == dash && s[j + 2] == ' '
    ensures HYPHEN == [' ', '-', ' '] && EN_DASH == [' ', '\U{2013}', ' '] && EM_DASH == [' ', '\U{2014}', ' ']
  {
    if 0 <= j <= |s| - 3 {
      assert s[j..j + 3] == [s[j], s[j + 1], s[j + 2]];
    }
  }

  lemma EndingAt(s: string, j: int)
    ensures At(s, " -", j) <==> 0 <= j <= |s| - 2 && s[j] == ' ' && s[j + 1] == '-'
  {
    if 0 <= j <= |s| - 2 {
      assert s[j..j + 2] == [s[j], s[j + 1]];
    }
  }

  /** In a collapsed text both parts around a separator are visible and trimmed. */
  lemma PartsOfCollapsed(s: string, dash: char, k: nat)
    requires Collapsed(s) && At(s, [' ', dash, ' '], k)
    ensures 0 < k && k + 3 < |s| && Visible(s[..k]) && Visible(s[k + 3..])
    ensures Trim(s[..k]) == s[..k] && Trim(s[k + 3..]) == s[k + 3..]
    ensures s == s[..k] + [' ', dash, ' '] + s[k + 3..]
  {
    hide IsSpace, At, Trim;
    DashIsVisible();
    SeparatorAt(s, dash, k);
    var artist, title := s[..k], s[k + 3..];
    assert !IsSpace(s[0]) && !IsSpace(s[|s| - 1]) && !IsSpace(s[k - 1]) && !IsSpace(s[k + 3]);
    assert forall i :: 0 <= i < |title| ==> title[i] == s[i + k + 3];
    TrimIsIdempotent(artist);
    TrimIsIdempotent(title);
  }

  /** Cutting a printed pair: at the end of the artist, or earlier and then with a shorter artist. */
  lemma CutPrinted(artist: string, title: string)
    requires Visible(artist) && Visible(title)
    ensures Cut(Printed(artist, title)) == (artist, title) <==> Uncut(artist)
  {
    var s := Printed(artist, title);
    PrintedIsCollapsed(artist, title);
    FirstHyphen(artist, title);
    var k := IndexOf(s, HYPHEN).value;
    SeparatorAt(s, '-', k);
    PartsOfCollapsed(s, '-', k);
    hide Trim, Collapsed, At;
    assert CutAt(s, HYPHEN) == Some((s[..k], s[k + 3..]));
    if k == |artist| {
      assert s[..k] == artist && s[k + 3..] == title;
    }
  }

  /** Whatever parts a cut yields, they and the separator fit in the text. */
  lemma CutFits(s: string)
    ensures Cut(s).0 != "" ==> |Cut(s).0| + 3 + |Cut(s).1| <= |s|
  {
    hide Trim;
    assert |HYPHEN| == 3 && |EN_DASH| == 3 && |EM_DASH| == 3;
  }

  lemma {:induction false} CleanShortens(s: string)
    ensures |Clean(s)| <= |s|
    ensures Shorter(s) != s ==> |Clean(s)| < |s|
    decreases |s|
  {
    if Shorter(s) != s {
      CleanShortens(Shorter(s));
    }
  }

  /** Some suffix of `s` is removable. */
  predicate HasSuffix(s: string) {
    Strip(s) != s
  }

  lemma {:induction false} StripsASuffix(s: string)
    ensures HasSuffix(s) <==> exists p :: 0 <= p < |s| && IsSuffix(s[p..])
    decreases |s|
  {
    hide IsSuffix;
    if s != [] {
      var rest := s[1..];
      StripsASuffix(rest);
      assert s[0..] == s && s == [s[0]] + rest;
      assert forall p :: 1 <= p < |s| ==> s[p..] == rest[p - 1..];
      if p :| 0 <= p < |rest| && IsSuffix(rest[p..]) {
        assert IsSuffix(s[p + 1..]);
      }
      if p :| 1 <= p < |s| && IsSuffix(s[p..]) {
        assert IsSuffix(rest[p - 1..]);
      }
    }
  }

  lemma NormalOfCollapsed(s: string)
    requires Collapsed(s)
    ensures Normal(s) == s && (Clean(s) == s <==> !HasSuffix(s))
  {
    JoinFields(s);
    TrimIsIdempotent(s);
    if HasSuffix(s) {
      assert |Strip(s)| < |s|;
    }
  }

  /**
   Parsing undoes printing exactly when the artist cannot be cut early and the
   whole has no removable suffix.
   */
  lemma ParseUndoesPrint(artist: string, title: string)
    requires Visible(artist) && Visible(title)
    ensures var hint := Parsed(Printed(artist, title));
      hint.artist == artist && hint.title == title <==> Uncut(artist) && !HasSuffix(Printed(artist, title))
  {
    hide Strip, Trim, Cut, Collapsed, Clean, Normal, At, Uncut;
    var s := Printed(artist, title);
    PrintedIsCollapsed(artist, title);
    NormalOfCollapsed(s);
    CutPrinted(artist, title);
    ShorterThanItself(s);
    CleanShortens(s);
    CutFits(Clean(s));
    assert |s| == |artist| + 3 + |title|;
    assert Parsed(s).artist == Cut(Clean(s)).0 && Parsed(s).title == Cut(Clean(s)).1;
  }

  lemma ShorterThanItself(s: string)
    requires Collapsed(s)
    ensures HasSuffix(s) ==> Shorter(s) != s
  {
    if HasSuffix(s) {
      assert |Strip(s)| < |s|;
    }
  }

  // ----- the canonical form of what was parsed -----

  /** A character that plays no part in the removable suffix, as the dashes do. */
  predicate Inert(c: char) {
    c == '-' || c == '\U{2013}' || c == '\U{2014}'
  }

  /** The same text up to the kind of dashes. */
  predicate Similar(s: string, t: string) {
    |s| == |t| && forall i :: 0 <= i < |s| ==> s[i] == t[i] || (Inert(s[i]) && Inert(t[i]))
  }

  lemma {:induction false} SimilarSpaces(s: string, t: string)
    requires Similar(s, t)
    ensures Similar(SkipSpaces(s), SkipSpaces(t))
    decreases |s|
  {
    if s != [] && RegexSpace(s[0]) {
      SimilarSpaces(s[1..], t[1..]);
    }
  }

  lemma SimilarStart(s: string, t: string, word: string)
    requires Similar(s, t) && forall i :: 0 <= i < |word| ==> 'a' <= word[i] <= 'z'
    ensures StartsWith(s, word) <==> StartsWith(t, word)
  {
  }

  lemma SimilarWord(s: string, t: string, word: string)
    requires Similar(s, t) && forall i :: 0 <= i < |word| ==> 'a' <= word[i] <= 'z'
    ensures Similar(SkipWord(s, word), SkipWord(t, word))
  {
    SimilarStart(s, t, word);
    if |word| < |s| {
      SimilarSpaces(s[|word|..], t[|word|..]);
    }
  }

  lemma {:induction false} SimilarEnd(s: string, t: string)
    requires Similar(s, t)
    ensures ClosesAtEnd(s) <==> ClosesAtEnd(t)
    decreases |s|
  {
    if s != [] {
      SimilarSpaces(s[1..], t[1..]);
      SimilarEnd(s[1..], t[1..]);
    }
  }

  lemma SimilarSuffix(s: string, t: string)
    requires Similar(s, t)
    ensures IsSuffix(s) <==> IsSuffix(t)
  {
    SimilarSpaces(s, t);
    var a, b := SkipSpaces(s), SkipSpaces(t);
    if a != [] {
      SimilarWord(a[1..], b[1..], "official");
      var a1, b1 := SkipWord(a[1..], "official"), SkipWord(b[1..], "official");
      SimilarWord(a1, b1, "music");
      var a2, b2 := SkipWord(a1, "music"), SkipWord(b1, "music");
      hide SkipWord, SkipSpaces, ClosesAtEnd, StartsWith;
      SimilarKeyword(a2, b2);
      SimilarEnd(a2, b2);
    }
  }

  lemma SimilarKeyword(s: string, t: string)
    requires Similar(s, t)
    ensures HasKeyword(s) <==> HasKeyword(t)
  {
    hide StartsWith, Similar;
    SimilarStart(s, t, "video");
    SimilarStart(s, t, "audio");
    SimilarStart(s, t, "visualiser");
    SimilarStart(s, t, "visualizer");
    SimilarStart(s, t, "lyric");
    SimilarStart(s, t, "live");
  }

  lemma {:induction false} SimilarStrip(s: string, t: string)
    requires Similar(s, t)
    ensures HasSuffix(s) <==> HasSuffix(t)
    decreases |s|
  {
    if s != [] {
      SimilarSuffix(s, t);
      SimilarStrip(s[1..], t[1..]);
      assert s == [s[0]] + s[1..] && t == [t[0]] + t[1..];
    }
  }

  lemma PrefixIsCollapsed(s: string, n: nat)
    requires Collapsed(s) && n <= |s|
    ensures Collapsed(Trim(s[..n]))
  {
    hide IsSpace;
    var p := s[..n];
    if p != [] {
      assert !IsSpace(s[0]);
      assert TrimLeft(p) == p;
    }
    var r := Trim(p);
    assert r <= p;
    assert forall i :: 0 <= i < |r| ==> r[i] == s[i];
  }

  /** Cleaning a collapsed text leaves a collapsed text without removable suffix. */
  lemma {:induction false} CleanIsCollapsed(s: string)
    requires Collapsed(s)
    ensures Collapsed(Clean(s)) && !HasSuffix(Clean(s))
    decreases |s|
  {
    if Shorter(s) == s {
      ShorterThanItself(s);
    } else {
      PrefixIsCollapsed(s, |Strip(s)|);
      assert s[..|Strip(s)|] == Strip(s);
      CleanIsCollapsed(Shorter(s));
    }
  }

  lemma NormalIsCollapsed(raw: string)
    ensures Collapsed(Normal(raw))
  {
    FieldsAreWords(raw);
    JoinIsCollapsed(Fields(raw));
    TrimIsIdempotent(Join(Fields(raw)));
  }

  /** The title of a collapsed text without suffix is cut by a hyphen: printing gives the text back. */
  lemma ReparseHyphen(c: string)
    ensures Collapsed(c) && !HasSuffix(c) && CutAt(c, HYPHEN).Some? ==>
      && Cut(c).0 != "" && Printed(Cut(c).0, Cut(c).1) == c
      && Parsed(c).artist == Cut(c).0 && Parsed(c).title == Cut(c).1
  {
    hide Trim, Collapsed, At, Clean, Normal, Strip;
    if Collapsed(c) && !HasSuffix(c) && CutAt(c, HYPHEN).Some? {
      var k := IndexOf(c, HYPHEN).value;
      SeparatorAt(c, '-', k);
      PartsOfCollapsed(c, '-', k);
      NormalOfCollapsed(c);
    }
  }

  /** A text without hyphen cut at another dash: its artist stays uncut when a hyphen takes the dash's place. */
  lemma ReparseDash(c: string, dash: char, k: nat)
    requires Collapsed(c) && !HasSuffix(c) && Inert(dash) && At(c, [' ', dash, ' '], k)
    requires forall j :: !At(c, HYPHEN, j)
    ensures Visible(c[..k]) && Visible(c[k + 3..])
    ensures Uncut(c[..k]) && !HasSuffix(Printed(c[..k], c[k + 3..]))
  {
    hide Collapsed, At, Strip;
    PartsOfCollapsed(c, dash, k);
    SeparatorAt(c, dash, k);
    var artist, title := c[..k], c[k + 3..];
    var p := Printed(artist, title);
    assert |p| == |c| && forall i :: 0 <= i < |p| ==> p[i] == if i == k + 1 then '-' else c[i];
    assert Similar(p, c);
    SimilarStrip(p, c);
    forall j | 0 <= j <= |artist| ensures !At(artist, HYPHEN, j) {
      SeparatorAt(artist, '-', j);
      SeparatorAt(c, '-', j);
    }
    EndingAt(artist, k - 2);
    SeparatorAt(c, '-', k - 2);
  }

  /** In a collapsed text a separator that occurs cuts. */
  lemma NoCutNoSeparator(c: string, dash: char)
    requires Collapsed(c)
    ensures CutAt(c, [' ', dash, ' ']).None? ==> forall j :: !At(c, [' ', dash, ' '], j)
    ensures CutAt(c, [' ', dash, ' ']).Some? ==>
      exists k: nat :: At(c, [' ', dash, ' '], k) && k + 3 <= |c|
                       && CutAt(c, [' ', dash, ' ']).value == (c[..k], c[k + 3..])
  {
    hide Trim, Collapsed, At;
    var found := IndexOf(c, [' ', dash, ' ']);
    if found.Some? {
      PartsOfCollapsed(c, dash, found.value);
      assert CutAt(c, [' ', dash, ' ']) == Some((c[..found.value], c[found.value + 3..]));
    }
  }

  /**
   The canonical "artist - title" form of anything that parses parses to the
   same artist and title, whatever dash, blanks and suffixes the raw title had.
   */
  lemma CanonicalFormIsStable(raw: string)
    ensures var hint := Parsed(raw);
      var again := Parsed(Printed(hint.artist, hint.title));
      hint.artist != "" ==> again.artist == hint.artist && again.title == hint.title
  {
    hide Trim, Collapsed, At, Clean, Normal, Strip, Uncut, HasSuffix, CutAt;
    NormalIsCollapsed(raw);
    CleanIsCollapsed(Normal(raw));
    var c := Clean(Normal(raw));
    SeparatorAt(c, '-', 0);
    if CutAt(c, HYPHEN).Some? {
      ReparseHyphen(c);
    } else if Parsed(raw).artist != "" {
      NoCutNoSeparator(c, '-');
      var dash := if CutAt(c, EN_DASH).Some? then '\U{2013}' else '\U{2014}';
      NoCutNoSeparator(c, '\U{2013}');
      NoCutNoSeparator(c, '\U{2014}');
      var k: nat :| At(c, [' ', dash, ' '], k) && k + 3 <= |c| && Cut(c) == (c[..k], c[k + 3..]);
      ReparseDash(c, dash, k);
      ParseUndoesPrint(c[..k], c[k + 3..]);
    }
  }
}
