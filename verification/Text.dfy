/** White space as the source's string library sees it. */
module Text {

  /** The Unicode white space characters. */
  predicate IsSpace(c: char) {
    '\t' <= c <= '\r' || c == ' ' || c == '\U{85}' || c == '\U{A0}' || c == '\U{1680}'
    || '\U{2000}' <= c <= '\U{200A}' || c == '\U{2028}' || c == '\U{2029}' || c == '\U{202F}'
    || c == '\U{205F}' || c == '\U{3000}'
  }

  function TrimLeft(s: string): (r: string)
    ensures |r| <= |s| && r == s[|s| - |r|..]
    ensures r != [] ==> !IsSpace(r[0])
  {
    if s != [] && IsSpace(s[0]) then TrimLeft(s[1..]) else s
  }

  function TrimRight(s: string): (r: string)
    ensures r <= s
    ensures r != [] ==> !IsSpace(r[|r| - 1])
  {
    if s != [] && IsSpace(s[|s| - 1]) then TrimRight(s[..|s| - 1]) else s
  }

  function Trim(s: string): (r: string)
    ensures |r| <= |s|
    ensures r != [] ==> !IsSpace(r[0]) && !IsSpace(r[|r| - 1])
  {
    TrimRight(TrimLeft(s))
  }

  predicate Trimmed(s: string) {
    s != [] ==> !IsSpace(s[0]) && !IsSpace(s[|s| - 1])
  }

  lemma TrimIsIdempotent(s: string)
    ensures Trimmed(Trim(s))
    ensures Trimmed(s) ==> Trim(s) == s
  {
  }

  // ----- fields -----

  /** The leading run of visible characters. */
  function WordLength(s: string): (n: nat)
    ensures n <= |s|
    ensures forall i :: 0 <= i < n ==> !IsSpace(s[i])
    ensures n < |s| ==> IsSpace(s[n])
  {
    if s != [] && !IsSpace(s[0]) then 1 + WordLength(s[1..]) else 0
  }

  /** The words of a text. */
  function Fields(s: string): seq<string>
    decreases |s|
  {
    if s == [] then []
    else if IsSpace(s[0]) then Fields(s[1..])
    else [s[..WordLength(s)]] + Fields(s[WordLength(s)..])
  }

  function Join(words: seq<string>): string {
    if |words| == 0 then ""
    else if |words| == 1 then words[0]
    else words[0] + " " + Join(words[1..])
  }

  /** Words separated by single blanks, nothing around them. */
  predicate Collapsed(s: string) {
    && Trimmed(s)
    && (forall i :: 0 <= i < |s| && IsSpace(s[i]) ==> s[i] == ' ')
    && (forall i :: 0 <= i < |s| - 1 ==> !(IsSpace(s[i]) && IsSpace(s[i + 1])))
  }

  predicate Word(w: string) {
    w != [] && forall i :: 0 <= i < |w| ==> !IsSpace(w[i])
  }

  lemma {:induction false} FieldsAreWords(s: string)
    ensures forall k :: 0 <= k < |Fields(s)| ==> Word(Fields(s)[k])
    decreases |s|
  {
    if s != [] {
      if IsSpace(s[0]) {
        FieldsAreWords(s[1..]);
      } else {
        FieldsAreWords(s[WordLength(s)..]);
      }
    }
  }

  lemma {:induction false} JoinIsCollapsed(words: seq<string>)
    requires forall k :: 0 <= k < |words| ==> Word(words[k])
    ensures Collapsed(Join(words))
    ensures |words| > 0 ==> Join(words) != [] && !IsSpace(Join(words)[0]) && !IsSpace(Join(words)[|Join(words)| - 1])
    decreases |words|
  {
    if |words| == 1 {
      assert Word(words[0]);
    } else if |words| > 1 {
      JoinIsCollapsed(words[1..]);
      BlankJoinsCollapsed(words[0], Join(words[1..]));
    }
  }

  /** Two collapsed texts with a blank between them. */
  lemma BlankJoinsCollapsed(a: string, b: string)
    requires Word(a) && b != [] && Collapsed(b) && !IsSpace(b[0])
    ensures Collapsed(a + " " + b)
  {
    var s := a + " " + b;
    hide IsSpace;
    assert s[|a|] == ' ' && (forall i :: 0 <= i < |a| ==> s[i] == a[i]);
    assert forall i :: |a| < i < |s| ==> s[i] == b[i - |a| - 1];
  }

  lemma CollapsedTail(s: string)
    requires Collapsed(s) && s != []
    ensures var n := WordLength(s);
      n > 0 && (n < |s| ==> s[n] == ' ' && n + 1 < |s| && Collapsed(s[n + 1..]) && !IsSpace(s[n + 1]))
  {
    hide IsSpace;
  }

  lemma FieldsStep(s: string)
    requires s != []
    ensures Fields(s) == if IsSpace(s[0]) then Fields(s[1..]) else [s[..WordLength(s)]] + Fields(s[WordLength(s)..])
  {
    hide IsSpace;
  }

  lemma SplitAtBlank(s: string, n: nat)
    requires n < |s| && s[n] == ' '
    ensures s == s[..n] + " " + s[n + 1..]
    ensures s[n..] != [] && s[n..][0] == ' ' && s[n..][1..] == s[n + 1..]
  {
  }

  lemma LastField(s: string)
    requires s != [] && !IsSpace(s[0]) && WordLength(s) == |s|
    ensures Fields(s) == [s]
  {
    hide IsSpace;
    FieldsStep(s);
    assert s[..|s|] == s && s[|s|..] == [];
  }

  lemma FieldsSplit(s: string)
    requires Collapsed(s) && s != []
    ensures var n := WordLength(s);
      if n < |s| then Fields(s) == [s[..n]] + Fields(s[n + 1..]) && s == s[..n] + " " + s[n + 1..]
      else Fields(s) == [s]
  {
    CollapsedTail(s);
    assert !IsSpace(s[0]) && IsSpace(' ');
    hide IsSpace, Collapsed, WordLength, Fields;
    var n := WordLength(s);
    if n < |s| {
      SplitAtBlank(s, n);
      FieldsStep(s);
      FieldsStep(s[n..]);
    } else {
      LastField(s);
    }
  }

  lemma FieldsExist(s: string)
    requires s != [] && !IsSpace(s[0])
    ensures |Fields(s)| > 0
  {
  }

  /** Splitting into words and joining them again leaves a collapsed text as it is. */
  lemma {:induction false} JoinFields(s: string)
    requires Collapsed(s)
    ensures Join(Fields(s)) == s
    decreases |s|
  {
    if s != [] {
      var n := WordLength(s);
      CollapsedTail(s);
      FieldsSplit(s);
      hide IsSpace, Collapsed, Fields, WordLength;
      if n < |s| {
        var rest := s[n + 1..];
        FieldsExist(rest);
        JoinFields(rest);
        assert Fields(s)[1..] == Fields(rest);
      }
    }
  }
}
