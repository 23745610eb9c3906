/**
 The canonical title the auto-queue stores, "artist - title" around a raw title
 it could not parse, and exactly when that title parses back to its parts.
 */
module TitlePrinting {
  import opened Wrappers
  import opened Text
  import opened TitleParser

  // ----- blanks -----

  lemma {:induction false} FieldsConcat(x: string, y: string)
    ensures Fields(x + " " + y) == Fields(x) + Fields(y)
    decreases |x|
  {
    DashIsVisible();
    hide IsSpace;
    var s := x + " " + y;
    if x == [] {
      assert s[1..] == y;
    } else if IsSpace(x[0]) {
      assert s[1..] == x[1..] + " " + y;
      FieldsConcat(x[1..], y);
    } else {
      FieldsConcat(x[WordLength(x)..], y);
      FirstWord(x, y);
    }
  }

  lemma FirstWord(x: string, y: string)
    requires x != [] && !IsSpace(x[0])
    ensures Fields(x + " " + y) == [x[..WordLength(x)]] + Fields(x[WordLength(x)..] + " " + y)
  {
    hide IsSpace;
    var s, n := x + " " + y, WordLength(x);
    WordOfConcat(x, y);
    assert s[n..] == x[n..] + " " + y && s[..n] == x[..n];
  }

  lemma {:induction false} WordOfConcat(x: string, y: string)
    ensures WordLength(x + " " + y) == WordLength(x)
    decreases |x|
  {
    var s := x + " " + y;
    if x != [] {
      assert s[1..] == x[1..] + " " + y;
      if !IsSpace(x[0]) {
        WordOfConcat(x[1..], y);
      }
    }
  }

  lemma {:induction false} JoinConcat(u: seq<string>, v: seq<string>)
    requires |u| > 0 && |v| > 0
    ensures Join(u + v) == Join(u) + " " + Join(v)
    decreases |u|
  {
    assert (u + v)[1..] == u[1..] + v;
    if |u| == 1 {
      assert u[1..] + v == v;
    } else {
      JoinConcat(u[1..], v);
    }
  }

  lemma NormalIsJoin(raw: string)
    ensures Normal(raw) == Join(Fields(raw))
    ensures Normal(raw) != "" <==> |Fields(raw)| > 0
    ensures Collapsed(Normal(raw))
  {
    FieldsAreWords(raw);
    JoinIsCollapsed(Fields(raw));
    TrimIsIdempotent(Join(Fields(raw)));
  }

  /** Normalising a printed pair normalises its parts. */
  lemma NormalOfPrinted(artist: string, title: string)
    requires Normal(artist) != ""
    ensures Normal(Printed(artist, title)) ==
      if Normal(title) == "" then Normal(artist) + " -" else Printed(Normal(artist), Normal(title))
  {
    hide Fields, Normal, Collapsed, Join;
    FieldsOfPrinted(artist, title);
    NormalIsJoin(artist);
    NormalIsJoin(title);
    NormalIsJoin(Printed(artist, title));
    hide Printed;
    JoinDashed(Fields(artist), Fields(title));
  }

  lemma FieldsOfPrinted(artist: string, title: string)
    ensures Fields(Printed(artist, title)) == Fields(artist) + (["-"] + Fields(title))
  {
    hide Fields;
    var rest := "-" + " " + title;
    assert Printed(artist, title) == artist + " " + rest;
    FieldsConcat(artist, rest);
    FieldsConcat("-", title);
    DashWord();
  }

  lemma JoinDashed(u: seq<string>, v: seq<string>)
    requires |u| > 0
    ensures Join(u + (["-"] + v)) == if |v| == 0 then Join(u) + " -" else Printed(Join(u), Join(v))
  {
    JoinOne("-");
    hide Join;
    JoinConcat(u, ["-"] + v);
    if |v| == 0 {
      assert ["-"] + v == ["-"];
      assert Join(u) + " " + "-" == Join(u) + " -";
    } else {
      JoinConcat(["-"], v);
      assert Join(u) + " " + ("-" + " " + Join(v)) == Printed(Join(u), Join(v));
    }
  }

  lemma JoinOne(w: string)
    ensures Join([w]) == w
  {
  }

  lemma DashWord()
    ensures Fields("-") == ["-"]
  {
    DashIsVisible();
    var d := "-";
    assert d[1..] == [] && WordLength(d) == 1 + WordLength(d[1..]) == 1;
    assert d[..1] == d && Fields(d[1..]) == [];
  }

  // ----- suffixes of a printed pair -----

  /** A text that ends where a title may follow. */
  predicate Leads(u: string) {
    |u| >= 2 && u[|u| - 2] == '-' && u[|u| - 1] == ' '
  }

  predicate Letters(word: string) {
    forall i :: 0 <= i < |word| ==> 'a' <= word[i] <= 'z'
  }

  lemma {:induction false} SpacesOfLead(u: string, x: string)
    requires Leads(u)
    ensures SkipSpaces(u + x) == SkipSpaces(u) + x && Leads(SkipSpaces(u))
    decreases |u|
  {
    if RegexSpace(u[0]) {
      assert (u + x)[1..] == u[1..] + x;
      SpacesOfLead(u[1..], x);
    }
  }

  lemma StartOfLead(u: string, x: string, word: string)
    requires Leads(u) && Letters(word)
    ensures StartsWith(u + x, word) <==> StartsWith(u, word)
    ensures StartsWith(u, word) ==> |word| <= |u| - 2
  {
    var s := u + x;
    assert forall i :: 0 <= i < |u| ==> s[i] == u[i];
    if |word| > |u| - 2 {
      assert Fold(u[|u| - 2]) == Fold(s[|u| - 2]) == '-' != word[|u| - 2];
    }
  }

  lemma WordOfLead(u: string, x: string, word: string)
    requires Leads(u) && Letters(word)
    ensures SkipWord(u + x, word) == SkipWord(u, word) + x && Leads(SkipWord(u, word))
  {
    StartOfLead(u, x, word);
    if StartsWith(u, word) {
      assert (u + x)[|word|] == u[|word|] && (u + x)[|word|..] == u[|word|..] + x;
      SpacesOfLead(u[|word|..], x);
    }
  }

  lemma KeywordOfLead(u: string, x: string)
    requires Leads(u)
    ensures HasKeyword(u + x) <==> HasKeyword(u)
  {
    hide StartsWith;
    StartOfLead(u, x, "video");
    StartOfLead(u, x, "audio");
    StartOfLead(u, x, "visualiser");
    StartOfLead(u, x, "visualizer");
    StartOfLead(u, x, "lyric");
    StartOfLead(u, x, "live");
  }

  predicate NeverCloses(u: string) {
    forall i :: 0 <= i < |u| ==> !Closes(u[i])
  }

  lemma {:induction false} EndOfLead(u: string, x: string)
    requires Leads(u)
    ensures ClosesAtEnd(u + x) <==> NeverCloses(u) && ClosesAtEnd(x)
    decreases |u|
  {
    assert (u + x)[1..] == u[1..] + x;
    if |u| == 2 {
      assert u[1..] == " " && (" " + x)[1..] == x;
      assert ClosesAtEnd(" " + x) == ClosesAtEnd(x);
      assert NeverCloses(u);
    } else if Closes(u[0]) {
      SpacesOfLead(u[1..], x);
    } else {
      EndOfLead(u[1..], x);
      assert u == [u[0]] + u[1..];
    }
  }

  /** A bracket that is open at the front, and still open where the title begins. */
  predicate LeftOpen(u: string) {
    var t := SkipSpaces(u);
    t != [] && Opens(t[0]) &&
    var k := SkipWord(SkipWord(t[1..], "official"), "music");
    HasKeyword(k) && NeverCloses(k)
  }

  lemma SuffixOfLead(u: string, x: string)
    requires Leads(u)
    ensures IsSuffix(u + x) <==> LeftOpen(u) && ClosesAtEnd(x)
  {
    SpacesOfLead(u, x);
    var t := SkipSpaces(u);
    if Opens(t[0]) {
      assert (t + x)[1..] == t[1..] + x;
      hide SkipSpaces, StartsWith, ClosesAtEnd;
      WordOfLead(t[1..], x, "official");
      var t1 := SkipWord(t[1..], "official");
      WordOfLead(t1, x, "music");
      hide SkipWord;
      KeywordOfLead(SkipWord(t1, "music"), x);
      EndOfLead(SkipWord(t1, "music"), x);
    }
  }

  /** Some bracket of the artist's is left open: it would take a title with it, up to a closing bracket. */
  predicate Dangles(artist: string) {
    HasSuffix(Printed(artist, ")"))
  }

  function Lead(artist: string): string { artist + HYPHEN }

  lemma LeadOfPrinted(artist: string, x: string, p: nat)
    requires p <= |artist| + 1
    ensures Leads(Lead(artist)[p..]) && Printed(artist, x)[p..] == Lead(artist)[p..] + x
  {
  }

  /** Where a removable suffix of a printed pair can begin: in the artist, with an open bracket, or in the title. */
  lemma SuffixAt(artist: string, x: string, p: nat)
    requires Visible(artist) && Visible(x) && p < |Printed(artist, x)|
    ensures p <= |artist| + 1 ==> (IsSuffix(Printed(artist, x)[p..]) <==> LeftOpen(Lead(artist)[p..]) && ClosesAtEnd(x))
    ensures |artist| <= p <= |artist| + 1 ==> !LeftOpen(Lead(artist)[p..])
    ensures p == |artist| + 2 ==> (IsSuffix(Printed(artist, x)[p..]) <==> IsSuffix(x))
    ensures p >= |artist| + 3 ==> Printed(artist, x)[p..] == x[p - |artist| - 3..]
  {
    var s := Printed(artist, x);
    if p <= |artist| + 1 {
      LeadOfPrinted(artist, x, p);
      SuffixOfLead(Lead(artist)[p..], x);
      if p >= |artist| {
        DashesOpenNothing();
        assert Lead(artist)[|artist|..] == " - " && Lead(artist)[|artist| + 1..] == "- ";
      }
    } else if p == |artist| + 2 {
      assert s[p..] == " " + x && (" " + x)[1..] == x;
      assert SkipSpaces(x) == x by { SpacesAreSpaces(x[0]); }
    }
  }

  lemma SpacesAreSpaces(c: char)
    ensures RegexSpace(c) ==> IsSpace(c)
  {
  }

  lemma DashesOpenNothing()
    ensures !LeftOpen(" - ") && !LeftOpen("- ")
  {
    assert " - "[1..] == "- ";
    assert SkipSpaces("- ") == "- ";
    assert SkipSpaces(" - ") == "- ";
  }

  lemma ClosingIsNoSuffix()
    ensures ClosesAtEnd(")") && Visible(")") && !IsSuffix(")")
  {
    assert ")"[1..] == [];
    assert SkipSpaces(")") == ")";
  }

  lemma DanglesAt(artist: string)
    requires Visible(artist)
    ensures Dangles(artist) <==> exists p :: 0 <= p < |artist| && LeftOpen(Lead(artist)[p..])
  {
    var s := Printed(artist, ")");
    ClosingIsNoSuffix();
    StripsASuffix(s);
    hide HasSuffix, IsSuffix, LeftOpen, ClosesAtEnd, Visible;
    forall p | 0 <= p < |s|
      ensures IsSuffix(s[p..]) <==> p < |artist| && LeftOpen(Lead(artist)[p..])
    {
      SuffixAt(artist, ")", p);
      if p >= |artist| + 3 {
        assert s[p..] == ")";
      }
    }
    assert |s| > |artist|;
  }

  /** The suffixes of a printed pair are those of the title, and one that begins in a dangling artist. */
  lemma PrintedHasSuffix(artist: string, x: string)
    requires Visible(artist) && Visible(x)
    ensures HasSuffix(Printed(artist, x)) <==> HasSuffix(x) || (Dangles(artist) && ClosesAtEnd(x))
  {
    var s := Printed(artist, x);
    hide HasSuffix, IsSuffix, LeftOpen, ClosesAtEnd, Dangles, Collapsed;
    StripsASuffix(s);
    StripsASuffix(x);
    DanglesAt(artist);
    if p :| 0 <= p < |s| && IsSuffix(s[p..]) {
      SuffixAt(artist, x, p);
      if p == |artist| + 2 {
        assert x[0..] == x;
      }
    }
    if p :| 0 <= p < |x| && IsSuffix(x[p..]) {
      SuffixAt(artist, x, |artist| + 3 + p);
    }
    if Dangles(artist) && ClosesAtEnd(x) {
      var p :| 0 <= p < |artist| && LeftOpen(Lead(artist)[p..]);
      SuffixAt(artist, x, p);
    }
  }

  // ----- cleaning a printed pair -----

  lemma {:induction false} StripAfter(pre: string, x: string)
    requires forall p :: 0 <= p < |pre| ==> !IsSuffix((pre + x)[p..])
    ensures Strip(pre + x) == pre + Strip(x)
    decreases |pre|
  {
    var s := pre + x;
    if pre == [] {
      assert s == x;
    } else {
      assert s[0..] == s && s[1..] == pre[1..] + x;
      forall p | 0 <= p < |pre[1..]| ensures !IsSuffix((pre[1..] + x)[p..]) {
        assert (pre[1..] + x)[p..] == s[p + 1..];
      }
      StripAfter(pre[1..], x);
      assert !IsSuffix(s);
    }
  }

  lemma {:induction false} StripAt(s: string, p: nat)
    requires p < |s| && IsSuffix(s[p..])
    ensures |Strip(s)| <= p
    decreases p
  {
    if p == 0 {
      assert s[0..] == s;
    } else {
      assert s[1..][p - 1..] == s[p..];
      StripAt(s[1..], p - 1);
    }
  }

  lemma {:induction false} TrimRightAfter(pre: string, y: string)
    requires TrimRight(y) != []
    ensures TrimRight(pre + y) == pre + TrimRight(y)
    decreases |y|
  {
    hide IsSpace;
    var s := pre + y;
    if IsSpace(y[|y| - 1]) {
      assert s[..|s| - 1] == pre + y[..|y| - 1];
      TrimRightAfter(pre, y[..|y| - 1]);
    }
  }

  lemma TrimAfter(pre: string, y: string)
    requires pre != [] && !IsSpace(pre[0]) && y != [] && !IsSpace(y[0])
    ensures Trim(pre + y) == pre + Trim(y)
  {
    VisibleStart(y);
    TrimRightAfter(pre, y);
  }

  lemma {:induction false} VisibleStart(y: string)
    requires y != [] && !IsSpace(y[0])
    ensures TrimRight(y) != [] && TrimRight(y)[0] == y[0]
    decreases |y|
  {
    if IsSpace(y[|y| - 1]) {
      VisibleStart(y[..|y| - 1]);
    }
  }

  /** A title that does not vanish keeps its first character when it gets shorter. */
  lemma ShorterKeepsStart(x: string)
    requires Visible(x) && !IsSuffix(x)
    ensures Visible(Shorter(x)) && Shorter(x) <= x && Strip(x) != [] && Strip(x)[0] == x[0]
  {
    var y := Strip(x);
    assert y == x[..|y|];
    assert y[0] == x[0];
    VisibleStart(y);
    assert TrimLeft(y) == y;
    PrefixIsCollapsed(x, |y|);
  }

  lemma ShorterPrinted(artist: string, x: string)
    requires Visible(artist) && Visible(x) && !IsSuffix(x) && !(Dangles(artist) && ClosesAtEnd(x))
    ensures Shorter(Printed(artist, x)) == Printed(artist, Shorter(x))
  {
    var pre := Lead(artist);
    DanglesAt(artist);
    assert Printed(artist, x) == pre + x;
    forall p | 0 <= p < |pre| ensures !IsSuffix((pre + x)[p..]) {
      SuffixAt(artist, x, p);
    }
    StripAfter(pre, x);
    ShorterKeepsStart(x);
    TrimAfter(pre, Strip(x));
    assert pre + Trim(Strip(x)) == Printed(artist, Trim(Strip(x)));
  }

  /** Some stage of cleaning a title ends in its only closing bracket. */
  predicate EndsInBracket(x: string)
    decreases |x|
  {
    ClosesAtEnd(x) || (Shorter(x) != x && EndsInBracket(Shorter(x)))
  }

  lemma VanishedTitle(x: string)
    ensures Clean(x) != "" ==> !IsSuffix(x)
  {
    hide IsSuffix, Trim;
    TrimIsIdempotent([]);
    assert IsSuffix(x) ==> Shorter(x) == [];
    assert Clean([]) == [];
  }

  /** An open bracket of the artist's closes at the end of the title. */
  lemma Swallowed(artist: string, x: string)
    requires Visible(artist) && Visible(x) && Dangles(artist) && ClosesAtEnd(x)
    ensures |Clean(Printed(artist, x))| < |artist|
  {
    hide Clean, Strip, Trim, IsSuffix, LeftOpen, ClosesAtEnd, Visible, Collapsed, Dangles;
    var s := Printed(artist, x);
    DanglesAt(artist);
    var p :| 0 <= p < |artist| && LeftOpen(Lead(artist)[p..]);
    SuffixAt(artist, x, p);
    StripAt(s, p);
    StripCleans(s, p);
  }

  lemma StripCleans(s: string, n: nat)
    requires |Strip(s)| <= n < |s|
    ensures |Clean(s)| <= n
  {
    hide Strip, Trim;
    CleanShortens(Shorter(s));
  }

  /** Unless an open bracket of the artist's swallows it, the title is cleaned as if it stood alone. */
  lemma {:induction false} CleanPrinted(artist: string, x: string)
    requires Visible(artist) && Visible(x)
    ensures Clean(x) != "" ==>
      if Dangles(artist) && EndsInBracket(x) then |Clean(Printed(artist, x))| < |artist|
      else Clean(Printed(artist, x)) == Printed(artist, Clean(x))
    decreases |x|
  {
    if Clean(x) == "" {
      return;
    }
    VanishedTitle(x);
    var s := Printed(artist, x);
    if Dangles(artist) && ClosesAtEnd(x) {
      Swallowed(artist, x);
    } else {
      ShorterPrinted(artist, x);
      if Shorter(x) != x {
        ShorterKeepsStart(x);
        assert Shorter(s) != s by { assert |Printed(artist, Shorter(x))| < |s|; }
        CleanPrinted(artist, Shorter(x));
      }
    }
  }

  // ----- the condition on the title -----

  /** The first closing bracket. */
  function FirstClose(x: string): (k: Option<nat>)
    ensures k.Some? ==> k.value < |x|
  {
    if x == [] then None
    else if Closes(x[0]) then Some(0)
    else match FirstClose(x[1..])
      case None => None
      case Some(k) => Some(k + 1)
  }

  /** Nothing behind the first closing bracket of a title outlives its cleaning. */
  predicate CutAtBracket(x: string) {
    FirstClose(x).Some? && |Clean(x)| <= FirstClose(x).value + 1
  }

  lemma {:induction false} FirstCloseIs(x: string)
    ensures match FirstClose(x)
      case None => NeverCloses(x)
      case Some(k) => k < |x| && Closes(x[k]) && NeverCloses(x[..k])
    decreases |x|
  {
    if x != [] && !Closes(x[0]) {
      FirstCloseIs(x[1..]);
      assert x == [x[0]] + x[1..];
      if FirstClose(x).Some? {
        assert x[..FirstClose(x).value] == [x[0]] + x[1..][..FirstClose(x).value - 1];
      }
    }
  }

  lemma {:induction false} EndIsFirstClose(x: string)
    ensures ClosesAtEnd(x) <==> FirstClose(x).Some? && SkipSpaces(x[FirstClose(x).value + 1..]) == []
    decreases |x|
  {
    if x != [] && !Closes(x[0]) {
      EndIsFirstClose(x[1..]);
      if FirstClose(x).Some? {
        assert x[FirstClose(x).value + 1..] == x[1..][FirstClose(x).value..];
      }
    }
  }

  lemma {:induction false} SpacesOnly(s: string)
    ensures SkipSpaces(s) == [] ==> s == [] || IsSpace(s[|s| - 1])
    decreases |s|
  {
    if s != [] {
      SpacesAreSpaces(s[0]);
      SpacesOnly(s[1..]);
    }
  }

  lemma CollapsedEnd(x: string)
    requires Visible(x)
    ensures ClosesAtEnd(x) <==> FirstClose(x) == Some(|x| - 1)
  {
    EndIsFirstClose(x);
    FirstCloseIs(x);
    if FirstClose(x).Some? {
      var rest := x[FirstClose(x).value + 1..];
      SpacesOnly(rest);
      if rest != [] {
        assert rest[|rest| - 1] == x[|x| - 1];
      }
    }
  }

  lemma {:induction false} SkippedSpacesClose(s: string)
    ensures ClosesAtEnd(SkipSpaces(s)) ==> ClosesAtEnd(s)
    decreases |s|
  {
    if s != [] && RegexSpace(s[0]) {
      SkippedSpacesClose(s[1..]);
    }
  }

  lemma {:induction false} SkippedPrefixCloses(s: string, n: nat)
    requires n <= |s| && NeverCloses(s[..n]) && ClosesAtEnd(s[n..])
    ensures ClosesAtEnd(s)
    decreases n
  {
    if n == 0 {
      assert s[0..] == s;
    } else {
      assert !Closes(s[..n][0]);
      assert s[1..][n - 1..] == s[n..];
      var front := s[1..][..n - 1];
      forall i | 0 <= i < |front| ensures !Closes(front[i]) {
        assert s[..n][i + 1] == front[i];
      }
      SkippedPrefixCloses(s[1..], n - 1);
    }
  }

  lemma SkippedWordCloses(s: string, word: string)
    requires Letters(word) && ClosesAtEnd(SkipWord(s, word))
    ensures ClosesAtEnd(s)
  {
    if SkipWord(s, word) != s {
      SkippedSpacesClose(s[|word|..]);
      assert NeverCloses(s[..|word|]) by {
        forall i | 0 <= i < |word| ensures !Closes(s[i]) {
          assert Fold(s[i]) == word[i];
        }
      }
      SkippedPrefixCloses(s, |word|);
    }
  }

  /** A removable suffix ends in its only closing bracket. */
  lemma SuffixCloses(s: string)
    requires IsSuffix(s)
    ensures ClosesAtEnd(s)
  {
    var t := SkipSpaces(s);
    var u := SkipWord(t[1..], "official");
    SkippedSpacesClose(s);
    hide SkipWord, SkipSpaces, StartsWith;
    SkippedWordCloses(u, "music");
    SkippedWordCloses(t[1..], "official");
  }

  lemma {:induction false} FirstCloseBound(x: string, i: nat)
    requires i < |x| && Closes(x[i])
    ensures FirstClose(x).Some? && FirstClose(x).value <= i
    decreases i
  {
    if !Closes(x[0]) {
      FirstCloseBound(x[1..], i - 1);
    }
  }

  lemma ClosesBefore(x: string, p: nat)
    requires p <= |x| && ClosesAtEnd(x[p..]) && !ClosesAtEnd(x)
    ensures FirstClose(x).Some? && FirstClose(x).value < p
  {
    hide ClosesAtEnd;
    FirstCloseIs(x);
    if NeverCloses(x[..p]) {
      SkippedPrefixCloses(x, p);
    } else {
      var i :| 0 <= i < p && Closes(x[..p][i]);
      FirstCloseBound(x, i);
    }
  }

  /** A stage that does not end in its only closing bracket keeps the first one. */
  lemma FirstCloseStays(x: string)
    requires Visible(x) && !IsSuffix(x) && !ClosesAtEnd(x) && Shorter(x) != x
    ensures Visible(Shorter(x)) && FirstClose(x).Some? && FirstClose(Shorter(x)) == FirstClose(x)
  {
    ShorterKeepsStart(x);
    StripEnds(x);
    hide IsSuffix, ClosesAtEnd, Strip, Collapsed;
    SuffixCloses(x[|Strip(x)|..]);
    ClosesBefore(x, |Strip(x)|);
    FirstCloseIs(x);
    var k := FirstClose(x).value;
    CloseIsVisible(x[k]);
    assert Strip(x)[k] == x[k];
    hide IsSpace, Trim, Closes;
    TrimKeepsUpTo(Strip(x), k);
    PrefixFirstClose(x, Shorter(x), k);
  }

  lemma StripEnds(x: string)
    requires Visible(x) && Shorter(x) != x
    ensures |Strip(x)| < |x| && IsSuffix(x[|Strip(x)|..])
  {
    TrimIsIdempotent(x);
    StripLeaves(x);
  }

  lemma {:induction false} StripLeaves(s: string)
    ensures Strip(s) == s || (|Strip(s)| < |s| && IsSuffix(s[|Strip(s)|..]))
    decreases |s|
  {
    if s != [] && !IsSuffix(s) {
      StripLeaves(s[1..]);
      assert s == [s[0]] + s[1..];
      assert s[|Strip(s)|..] == s[1..][|Strip(s[1..])|..];
    }
  }

  lemma CloseIsVisible(c: char)
    ensures Closes(c) ==> !IsSpace(c)
  {
  }

  lemma {:induction false} TrimRightKeeps(y: string, k: nat)
    requires k < |y| && !IsSpace(y[k])
    ensures k < |TrimRight(y)|
    decreases |y|
  {
    if IsSpace(y[|y| - 1]) {
      TrimRightKeeps(y[..|y| - 1], k);
    }
  }

  lemma TrimKeepsUpTo(y: string, k: nat)
    requires k < |y| && !IsSpace(y[k]) && !IsSpace(y[0])
    ensures k < |Trim(y)|
  {
    TrimRightKeeps(y, k);
  }

  lemma {:induction false} PrefixFirstClose(x: string, y: string, k: nat)
    requires y <= x && FirstClose(x) == Some(k) && k < |y|
    ensures FirstClose(y) == Some(k)
    decreases k
  {
    if !Closes(x[0]) {
      PrefixFirstClose(x[1..], y[1..], k - 1);
    }
  }

  lemma {:induction false} BracketDecides(x: string)
    requires Visible(x)
    ensures Clean(x) != "" ==> (EndsInBracket(x) <==> CutAtBracket(x))
    decreases |x|
  {
    hide ClosesAtEnd, IsSuffix, FirstClose, Shorter, Clean, Collapsed;
    CleanOnce(x);
    CleanShortens(x);
    if Clean(x) != "" {
      VanishedTitle(x);
      CollapsedEnd(x);
      if !ClosesAtEnd(x) && Shorter(x) != x {
        FirstCloseStays(x);
        BracketDecides(Shorter(x));
      }
    }
  }

  lemma CleanOnce(x: string)
    ensures Clean(x) == if Shorter(x) == x then x else Clean(Shorter(x))
    ensures |Shorter(x)| <= |x| && (|Shorter(x)| == |x| ==> Shorter(x) == x)
  {
    hide Shorter;
  }

  // ----- the theorem -----

  /**
   A printed title parses to its artist and to its own cleaned title exactly if
   there is anything left of that, the artist cannot be cut early, and no bracket
   left open in the artist meets a title that is cut at its first closing bracket.
   */
  lemma PrintedParses(artist: string, title: string)
    requires Normal(artist) != ""
    ensures var a, n, hint := Normal(artist), Normal(title), Parsed(Printed(artist, title));
      hint.artist == a && hint.title == Clean(n) <==>
        Clean(n) != "" && Uncut(a) && !(Dangles(a) && CutAtBracket(n))
  {
    hide Normal, Clean, Cut, Uncut, Dangles, CutAtBracket, Parsed, Printed, Visible;
    PartsOfParsed(Printed(artist, title));
    if Clean(Normal(title)) == "" {
      CutNeedsBoth(Clean(Normal(Printed(artist, title))));
    } else {
      CleanNeedsText(Normal(title));
      NormalOfPrinted(artist, title);
      VisibleNormal(artist);
      VisibleNormal(title);
      CutOfCleaned(Normal(artist), Normal(title));
    }
  }

  lemma VisibleNormal(raw: string)
    requires Normal(raw) != ""
    ensures Visible(Normal(raw))
  {
    NormalIsJoin(raw);
  }

  lemma PartsOfParsed(raw: string)
    ensures Parsed(raw).artist == Cut(Clean(Normal(raw))).0 && Parsed(raw).title == Cut(Clean(Normal(raw))).1
  {
    hide Normal, Clean, Cut;
  }

  lemma CleanNeedsText(n: string)
    ensures Clean(n) != "" ==> n != ""
  {
    CleanShortens(n);
  }

  lemma CutOfCleaned(a: string, n: string)
    requires Visible(a) && Visible(n)
    ensures Clean(n) != "" ==>
      (Cut(Clean(Printed(a, n))) == (a, Clean(n)) <==> Uncut(a) && !(Dangles(a) && CutAtBracket(n)))
  {
    if Clean(n) == "" {
      return;
    }
    hide Strip, Uncut, Dangles, EndsInBracket, IsSuffix, CutAt, Collapsed, CutAtBracket, Cut;
    CleanPrinted(a, n);
    BracketDecides(n);
    CutFits(Clean(Printed(a, n)));
    CleanIsCollapsed(n);
    CutPrinted(a, Clean(n));
  }

  lemma CutNeedsBoth(s: string)
    ensures Cut(s).1 == "" ==> Cut(s).0 == ""
  {
    hide Trim, IndexOf;
  }

  // ----- where it fails -----

  lemma LiveCloses()
    ensures ClosesAtEnd("Live)")
  {
    var t := "Live)";
    assert SkipSpaces("") == "";
    assert t[4..] == ")" && t[4..][1..] == "" && ClosesAtEnd(t[4..]);
    assert t[3..][1..] == t[4..] && t[2..][1..] == t[3..] && t[1..][1..] == t[2..];
    assert ClosesAtEnd(t[3..]) && ClosesAtEnd(t[2..]) && ClosesAtEnd(t[1..]);
  }

  lemma LiveIsKeyword()
    ensures HasKeyword("Live)") && SkipWord("Live)", "official") == SkipWord("Live)", "music") == "Live)"
  {
    var t := "Live)";
    assert StartsWith(t, "live");
    assert Fold(t[0]) != 'm' && |t| < |"official"|;
  }

  lemma LiveIsSuffix()
    ensures IsSuffix("(Live)")
  {
    LiveCloses();
    LiveIsKeyword();
    hide ClosesAtEnd, HasKeyword, SkipWord;
    var s := "(Live)";
    assert SkipSpaces(s) == s && s[1..] == "Live)";
  }

  lemma LiveIsVisible()
    ensures Visible("(Live)") && Visible("A")
  {
  }

  /** A title that is nothing but a removable suffix leaves no artist behind. */
  lemma BareSuffixIsLost()
    ensures Parsed("(Live)").artist == "" && Parsed(Printed("A", "(Live)")).artist != "A"
  {
    LiveIsSuffix();
    LiveIsVisible();
    NormalOfCollapsed("A");
    NormalOfCollapsed("(Live)");
    hide IsSuffix, Visible, Collapsed, Cut, Uncut, Dangles;
    SuffixVanishes("(Live)");
    PartsOfParsed("(Live)");
    PartsOfParsed(Printed("A", "(Live)"));
    CutFits("");
    VanishedPair("A", "(Live)");
  }

  lemma SuffixVanishes(x: string)
    requires IsSuffix(x)
    ensures Clean(x) == ""
  {
    hide IsSuffix, Trim;
    TrimIsIdempotent([]);
    assert Shorter(x) == [];
    assert Clean([]) == [];
  }

  lemma VanishedPair(a: string, x: string)
    requires Visible(a) && Visible(x) && IsSuffix(x) && Normal(a) == a && Normal(x) == x
    ensures Cut(Clean(Normal(Printed(a, x)))).0 != a
  {
    hide IsSuffix, Cut, Clean, Trim, Collapsed;
    NormalOfPrinted(a, x);
    var s := Printed(a, x);
    SuffixAt(a, x, |a| + 2);
    StripAt(s, |a| + 2);
    StripCleans(s, |a| + 2);
    CutFits(Clean(s));
  }
}
