/**
 Merging the results of several metadata providers into one: scalar fields keep
 the first value, lists collect distinct entries up to a limit.
 */
module ProviderMerge {
  import opened Wrappers
  import opened Text

  /** Names are compared up to case folding. */
  type Folding = string -> string

  datatype Image = Image(url: string, source: string, attribution: string)

  datatype Artist = Artist(name: string, url: string)

  datatype Result = Result(artist: string, provider: string, artistUrl: string, biography: string,
                           genres: seq<string>, related: seq<Artist>, image: Image)

  const LIMIT: nat := 12

  // ----- lists of distinct entries -----

  predicate Has<T>(list: seq<T>, k: string, key: T -> string) {
    exists i :: 0 <= i < |list| && key(list[i]) == k
  }

  function Append<T>(list: seq<T>, x: T, key: T -> string, limit: nat): seq<T> {
    if !Has(list, key(x), key) && |list| < limit then list + [x] else list
  }

  function Collect<T>(list: seq<T>, xs: seq<T>, key: T -> string, limit: nat): seq<T>
    decreases |xs|
  {
    if |xs| == 0 then list else Collect(Append(list, xs[0], key, limit), xs[1..], key, limit)
  }

  ghost predicate DistinctKeys<T>(list: seq<T>, key: T -> string) {
    forall i, j :: 0 <= i < j < |list| ==> key(list[i]) != key(list[j])
  }

  /** Collecting keeps entries distinct and the limit, and never moves an earlier entry. */
  lemma {:induction false} CollectKeeps<T>(list: seq<T>, xs: seq<T>, key: T -> string, limit: nat)
    requires DistinctKeys(list, key)
    ensures DistinctKeys(Collect(list, xs, key, limit), key)
    ensures list <= Collect(list, xs, key, limit)
    ensures |list| <= limit ==> |Collect(list, xs, key, limit)| <= limit
    ensures forall x :: x in Collect(list, xs, key, limit) ==> x in list || x in xs
    decreases |xs|
  {
    if |xs| > 0 {
      CollectKeeps(Append(list, xs[0], key, limit), xs[1..], key, limit);
    }
  }

  /** Everything collected from is in the list afterwards, unless the list is full. */
  lemma {:induction false} CollectCovers<T>(list: seq<T>, xs: seq<T>, key: T -> string, limit: nat)
    requires DistinctKeys(list, key)
    ensures var r := Collect(list, xs, key, limit);
      forall x :: x in xs ==> Has(r, key(x), key) || |r| >= limit
    decreases |xs|
  {
    if |xs| > 0 {
      var next := Append(list, xs[0], key, limit);
      CollectCovers(next, xs[1..], key, limit);
      CollectKeeps(next, xs[1..], key, limit);
      var r := Collect(list, xs, key, limit);
      if |r| < limit {
        assert next[|next| - 1] == xs[0] || Has(list, key(xs[0]), key);
        var i :| 0 <= i < |next| && key(next[i]) == key(xs[0]);
        assert r[i] == next[i];
      }
    }
  }

  lemma {:induction false} CollectNothingNew<T>(list: seq<T>, xs: seq<T>, key: T -> string, limit: nat)
    requires forall x :: x in xs ==> Has(list, key(x), key) || |list| >= limit
    ensures Collect(list, xs, key, limit) == list
    decreases |xs|
  {
    if |xs| > 0 {
      assert xs[0] in xs;
      CollectNothingNew(list, xs[1..], key, limit);
    }
  }

  lemma CollectTwice<T>(list: seq<T>, xs: seq<T>, key: T -> string, limit: nat)
    requires DistinctKeys(list, key)
    ensures Collect(Collect(list, xs, key, limit), xs, key, limit) == Collect(list, xs, key, limit)
  {
    CollectCovers(list, xs, key, limit);
    CollectNothingNew(Collect(list, xs, key, limit), xs, key, limit);
  }

  lemma {:induction false} CollectConcat<T>(list: seq<T>, a: seq<T>, b: seq<T>, key: T -> string, limit: nat)
    ensures Collect(list, a + b, key, limit) == Collect(Collect(list, a, key, limit), b, key, limit)
    decreases |a|
  {
    if |a| == 0 {
      assert a + b == b;
    } else {
      assert (a + b)[1..] == a[1..] + b;
      CollectConcat(Append(list, a[0], key, limit), a[1..], b, key, limit);
    }
  }

  // ----- the reference: first occurrences -----

  /** The entries whose key no earlier entry has. */
  function FirstOccurrences<T>(xs: seq<T>, key: T -> string): seq<T> {
    if |xs| == 0 then []
    else
      var before := FirstOccurrences(xs[..|xs| - 1], key);
      if exists i :: 0 <= i < |xs| - 1 && key(xs[i]) == key(xs[|xs| - 1]) then before else before + [xs[|xs| - 1]]
  }

  function Take<T>(xs: seq<T>, n: nat): seq<T> {
    if |xs| <= n then xs else xs[..n]
  }

  lemma {:induction false} FirstOccurrencesKeys<T>(xs: seq<T>, key: T -> string, k: string)
    ensures Has(FirstOccurrences(xs, key), k, key) <==> Has(xs, k, key)
    decreases |xs|
  {
    if |xs| > 0 {
      var front, last := xs[..|xs| - 1], xs[|xs| - 1];
      FirstOccurrencesKeys(front, key, k);
      var before, all := FirstOccurrences(front, key), FirstOccurrences(xs, key);
      assert forall i :: 0 <= i < |front| ==> front[i] == xs[i];
      if Has(xs, k, key) && !Has(front, k, key) {
        assert key(last) == k;
        assert all[|before|] == last;
      }
      if Has(before, k, key) {
        var i :| 0 <= i < |before| && key(before[i]) == k;
        assert all[i] == before[i];
      }
      if Has(all, k, key) && !Has(before, k, key) {
        assert key(xs[|xs| - 1]) == k;
      }
    }
  }

  /** Collecting into an empty list yields the first occurrences, up to the limit. */
  lemma {:induction false} CollectIsFirstOccurrences<T>(xs: seq<T>, key: T -> string, limit: nat)
    ensures Collect([], xs, key, limit) == Take(FirstOccurrences(xs, key), limit)
    decreases |xs|
  {
    if |xs| > 0 {
      var front, last := xs[..|xs| - 1], xs[|xs| - 1];
      assert xs == front + [last];
      CollectIsFirstOccurrences(front, key, limit);
      CollectConcat([], front, [last], key, limit);
      var firsts := FirstOccurrences(front, key);
      FirstOccurrencesKeys(front, key, key(last));
      assert Has(front, key(last), key) <==> exists i :: 0 <= i < |xs| - 1 && key(xs[i]) == key(last);
      var list := Take(firsts, limit);
      assert Collect(list, [last], key, limit) == Append(list, last, key, limit);
      if |firsts| > limit && Has(list, key(last), key) {
        var i :| 0 <= i < |list| && key(list[i]) == key(last);
        assert firsts[i] == list[i];
      }
    }
  }

  // ----- one merge -----

  function Usable(genres: seq<string>): seq<string> {
    if |genres| == 0 then []
    else
      var g := Trim(genres[0]);
      if g == "" then Usable(genres[1..]) else [g] + Usable(genres[1..])
  }

  function Named(artists: seq<Artist>): seq<Artist> {
    if |artists| == 0 then []
    else if artists[0].name == "" then Named(artists[1..])
    else [artists[0]] + Named(artists[1..])
  }

  /** The genres that are not blank, trimmed. */
  lemma {:induction false} UsableExactly(genres: seq<string>)
    ensures forall g :: g in Usable(genres) <==> g != "" && exists raw :: raw in genres && Trim(raw) == g
    decreases |genres|
  {
    hide Trim;
    if |genres| > 0 {
      UsableExactly(genres[1..]);
      assert genres == [genres[0]] + genres[1..];
    }
  }

  lemma {:induction false} NamedExactly(artists: seq<Artist>)
    ensures forall a :: a in Named(artists) <==> a in artists && a.name != ""
    decreases |artists|
  {
    if |artists| > 0 {
      NamedExactly(artists[1..]);
      assert artists == [artists[0]] + artists[1..];
    }
  }

  function NameKey(fold: Folding): Artist -> string {
    (a: Artist) => fold(a.name)
  }

  /** Which images are acceptable; every acceptable one has a URL. */
  type Acceptance = Image -> bool

  ghost predicate NeedsUrl(valid: Acceptance) {
    forall i :: valid(i) ==> i.url != ""
  }

  function Merged(d: Result, r: Result, fold: Folding, valid: Acceptance): Result {
    Result(
      if r.artist != "" && r.provider != "wikimedia" then r.artist else d.artist,
      d.provider,
      if d.artistUrl == "" && r.artistUrl != "" then r.artistUrl else d.artistUrl,
      if d.biography == "" then r.biography else d.biography,
      Collect(d.genres, Usable(r.genres), fold, LIMIT),
      Collect(d.related, Named(r.related), NameKey(fold), LIMIT),
      if valid(r.image) && (d.image.url == "" || r.provider == "wikimedia") then r.image else d.image)
  }

  ghost predicate WellFormed(d: Result, fold: Folding) {
    && |d.genres| <= LIMIT && DistinctKeys(d.genres, fold)
    && |d.related| <= LIMIT && DistinctKeys(d.related, NameKey(fold))
  }

  const EMPTY := Result("", "", "", "", [], [], Image("", "", ""))

  lemma MergeKeeps(d: Result, r: Result, fold: Folding, valid: Acceptance)
    requires WellFormed(d, fold)
    ensures WellFormed(Merged(d, r, fold, valid), fold)
    ensures d.genres <= Merged(d, r, fold, valid).genres && d.related <= Merged(d, r, fold, valid).related
  {
    CollectKeeps(d.genres, Usable(r.genres), fold, LIMIT);
    CollectKeeps(d.related, Named(r.related), NameKey(fold), LIMIT);
  }

  /** Merging a result a second time changes nothing. */
  lemma MergeTwice(d: Result, r: Result, fold: Folding, valid: Acceptance)
    requires WellFormed(d, fold) && NeedsUrl(valid)
    ensures Merged(Merged(d, r, fold, valid), r, fold, valid) == Merged(d, r, fold, valid)
  {
    CollectTwice(d.genres, Usable(r.genres), fold, LIMIT);
    CollectTwice(d.related, Named(r.related), NameKey(fold), LIMIT);
  }

  // ----- all providers -----

  function MergeAll(d: Result, rs: seq<Result>, fold: Folding, valid: Acceptance): Result
    decreases |rs|
  {
    if |rs| == 0 then d else MergeAll(Merged(d, rs[0], fold, valid), rs[1..], fold, valid)
  }

  function AllGenres(rs: seq<Result>): seq<string> {
    if |rs| == 0 then [] else Usable(rs[0].genres) + AllGenres(rs[1..])
  }

  function AllRelated(rs: seq<Result>): seq<Artist> {
    if |rs| == 0 then [] else Named(rs[0].related) + AllRelated(rs[1..])
  }

  lemma {:induction false} MergeAllCollects(d: Result, rs: seq<Result>, fold: Folding, valid: Acceptance)
    ensures MergeAll(d, rs, fold, valid).genres == Collect(d.genres, AllGenres(rs), fold, LIMIT)
    ensures MergeAll(d, rs, fold, valid).related == Collect(d.related, AllRelated(rs), NameKey(fold), LIMIT)
    decreases |rs|
  {
    if |rs| > 0 {
      MergeAllCollects(Merged(d, rs[0], fold, valid), rs[1..], fold, valid);
      CollectConcat(d.genres, Usable(rs[0].genres), AllGenres(rs[1..]), fold, LIMIT);
      CollectConcat(d.related, Named(rs[0].related), AllRelated(rs[1..]), NameKey(fold), LIMIT);
    }
  }

  /**
   Merging any sequence of provider results from an empty start gives the first
   twelve distinct genres and related artists in provider order.
   */
  lemma FirstTwelve(rs: seq<Result>, fold: Folding, valid: Acceptance)
    ensures var m := MergeAll(EMPTY, rs, fold, valid);
      && WellFormed(m, fold)
      && m.genres == Take(FirstOccurrences(AllGenres(rs), fold), LIMIT)
      && m.related == Take(FirstOccurrences(AllRelated(rs), NameKey(fold)), LIMIT)
  {
    MergeAllCollects(EMPTY, rs, fold, valid);
    CollectKeeps([], AllGenres(rs), fold, LIMIT);
    CollectKeeps([], AllRelated(rs), NameKey(fold), LIMIT);
    CollectIsFirstOccurrences(AllGenres(rs), fold, LIMIT);
    CollectIsFirstOccurrences(AllRelated(rs), NameKey(fold), LIMIT);
  }

  // ----- single values -----

  /** The first text of the results that is not empty. */
  function FirstText(rs: seq<Result>, text: Result -> string): string {
    if |rs| == 0 then "" else if text(rs[0]) != "" then text(rs[0]) else FirstText(rs[1..], text)
  }

  /** The last artist that a result of another provider than Wikimedia names. */
  function LastArtist(rs: seq<Result>): Option<string> {
    if |rs| == 0 then None
    else
      var r := rs[|rs| - 1];
      if r.artist != "" && r.provider != "wikimedia" then Some(r.artist) else LastArtist(rs[..|rs| - 1])
  }

  /** The last acceptable image of Wikimedia. */
  function LastWikimedia(rs: seq<Result>, valid: Acceptance): Option<Image> {
    if |rs| == 0 then None
    else
      var r := rs[|rs| - 1];
      if valid(r.image) && r.provider == "wikimedia" then Some(r.image) else LastWikimedia(rs[..|rs| - 1], valid)
  }

  function FirstImage(rs: seq<Result>, valid: Acceptance): Option<Image> {
    if |rs| == 0 then None
    else if FirstImage(rs[..|rs| - 1], valid).Some? then FirstImage(rs[..|rs| - 1], valid)
    else if valid(rs[|rs| - 1].image) then Some(rs[|rs| - 1].image)
    else None
  }

  lemma {:induction false} MergeAllOneMore(d: Result, rs: seq<Result>, r: Result, fold: Folding, valid: Acceptance)
    ensures MergeAll(d, rs + [r], fold, valid) == Merged(MergeAll(d, rs, fold, valid), r, fold, valid)
    decreases |rs|
  {
    hide Merged;
    if |rs| == 0 {
      assert rs + [r] == [r] && [r][1..] == [];
    } else {
      assert (rs + [r])[1..] == rs[1..] + [r];
      MergeAllOneMore(Merged(d, rs[0], fold, valid), rs[1..], r, fold, valid);
    }
  }

  lemma {:induction false} FirstTextOneMore(rs: seq<Result>, r: Result, text: Result -> string)
    ensures FirstText(rs + [r], text) == if FirstText(rs, text) != "" then FirstText(rs, text) else text(r)
    decreases |rs|
  {
    if |rs| == 0 {
      assert rs + [r] == [r] && [r][1..] == [];
    } else {
      assert (rs + [r])[1..] == rs[1..] + [r];
      FirstTextOneMore(rs[1..], r, text);
    }
  }

  lemma {:induction false} TextsAreFirst(rs: seq<Result>, fold: Folding, valid: Acceptance)
    ensures MergeAll(EMPTY, rs, fold, valid).biography == FirstText(rs, (r: Result) => r.biography)
    ensures MergeAll(EMPTY, rs, fold, valid).artistUrl == FirstText(rs, (r: Result) => r.artistUrl)
    decreases |rs|
  {
    if |rs| > 0 {
      var front, last := rs[..|rs| - 1], rs[|rs| - 1];
      assert rs == front + [last];
      hide MergeAll, FirstText, Merged;
      TextsAreFirst(front, fold, valid);
      MergeAllOneMore(EMPTY, front, last, fold, valid);
      FirstTextOneMore(front, last, (r: Result) => r.biography);
      FirstTextOneMore(front, last, (r: Result) => r.artistUrl);
      MergedTexts(MergeAll(EMPTY, front, fold, valid), last, fold, valid);
    }
  }

  lemma MergedTexts(d: Result, r: Result, fold: Folding, valid: Acceptance)
    ensures var m := Merged(d, r, fold, valid);
      && m.biography == (if d.biography == "" then r.biography else d.biography)
      && m.artistUrl == (if d.artistUrl == "" then r.artistUrl else d.artistUrl)
  {
  }

  lemma LastArtistOneMore(rs: seq<Result>)
    requires |rs| > 0
    ensures var r := rs[|rs| - 1];
      LastArtist(rs) ==
        if r.artist != "" && r.provider != "wikimedia" then Some(r.artist) else LastArtist(rs[..|rs| - 1])
  {
  }

  lemma MergedArtist(d: Result, r: Result, fold: Folding, valid: Acceptance)
    ensures Merged(d, r, fold, valid).artist ==
      if r.artist != "" && r.provider != "wikimedia" then r.artist else d.artist
  {
  }

  lemma MergedImage(d: Result, r: Result, fold: Folding, valid: Acceptance)
    ensures Merged(d, r, fold, valid).image ==
      if valid(r.image) && (d.image.url == "" || r.provider == "wikimedia") then r.image else d.image
  {
  }

  lemma {:induction false} ArtistIsLast(rs: seq<Result>, fold: Folding, valid: Acceptance)
    ensures MergeAll(EMPTY, rs, fold, valid).artist == if LastArtist(rs).Some? then LastArtist(rs).value else ""
    decreases |rs|
  {
    if |rs| > 0 {
      var front, last := rs[..|rs| - 1], rs[|rs| - 1];
      assert rs == front + [last];
      LastArtistOneMore(rs);
      hide MergeAll, Merged, LastArtist;
      ArtistIsLast(front, fold, valid);
      MergeAllOneMore(EMPTY, front, last, fold, valid);
      MergedArtist(MergeAll(EMPTY, front, fold, valid), last, fold, valid);
    }
  }

  /** The image that the results amount to: the last acceptable one of Wikimedia, or else the first acceptable one. */
  function BestImage(rs: seq<Result>, valid: Acceptance): Image {
    if LastWikimedia(rs, valid).Some? then LastWikimedia(rs, valid).value
    else if FirstImage(rs, valid).Some? then FirstImage(rs, valid).value
    else Image("", "", "")
  }

  lemma BestOneMore(rs: seq<Result>, valid: Acceptance)
    requires |rs| > 0 && NeedsUrl(valid)
    ensures var front, r := rs[..|rs| - 1], rs[|rs| - 1];
      && BestImage(rs, valid) ==
           (if valid(r.image) && (FirstImage(front, valid).None? || r.provider == "wikimedia") then r.image
            else BestImage(front, valid))
      && (FirstImage(rs, valid).None? <==> FirstImage(front, valid).None? && !valid(r.image))
  {
    WikimediaIsAnImage(rs[..|rs| - 1], valid);
  }

  lemma {:induction false} WikimediaIsAnImage(rs: seq<Result>, valid: Acceptance)
    ensures LastWikimedia(rs, valid).Some? ==> FirstImage(rs, valid).Some?
    decreases |rs|
  {
    if |rs| > 0 {
      WikimediaIsAnImage(rs[..|rs| - 1], valid);
    }
  }

  lemma {:induction false} ImageIsBest(rs: seq<Result>, fold: Folding, valid: Acceptance)
    requires NeedsUrl(valid)
    ensures var m := MergeAll(EMPTY, rs, fold, valid);
      m.image == BestImage(rs, valid) && (m.image.url == "" <==> FirstImage(rs, valid).None?)
    decreases |rs|
  {
    if |rs| > 0 {
      var front, last := rs[..|rs| - 1], rs[|rs| - 1];
      assert rs == front + [last];
      BestOneMore(rs, valid);
      hide MergeAll, Merged, BestImage, LastWikimedia, FirstImage;
      ImageIsBest(front, fold, valid);
      MergeAllOneMore(EMPTY, front, last, fold, valid);
      MergedImage(MergeAll(EMPTY, front, fold, valid), last, fold, valid);
    }
  }

  /**
   Biography and link are the first there are; the artist is the last that a
   provider other than Wikimedia names; the image is the best there is.
   */
  lemma SingleValues(rs: seq<Result>, fold: Folding, valid: Acceptance)
    requires NeedsUrl(valid)
    ensures var m := MergeAll(EMPTY, rs, fold, valid);
      && m.biography == FirstText(rs, (r: Result) => r.biography)
      && m.artistUrl == FirstText(rs, (r: Result) => r.artistUrl)
      && m.artist == (if LastArtist(rs).Some? then LastArtist(rs).value else "")
      && m.image == BestImage(rs, valid)
  {
    hide MergeAll, FirstText, LastArtist, BestImage;
    TextsAreFirst(rs, fold, valid);
    ArtistIsLast(rs, fold, valid);
    ImageIsBest(rs, fold, valid);
  }

  // ----- the destination -----

  lemma CollectUsable(list: seq<string>, incoming: seq<string>, i: nat, fold: Folding, limit: nat)
    requires i < |incoming|
    ensures Collect(list, Usable(incoming[i..]), fold, limit) ==
      Collect(if Trim(incoming[i]) == "" then list else Append(list, Trim(incoming[i]), fold, limit),
              Usable(incoming[i + 1..]), fold, limit)
  {
    hide Trim, Append;
    assert incoming[i..][0] == incoming[i] && incoming[i..][1..] == incoming[i + 1..];
  }

  lemma CollectNamed(list: seq<Artist>, incoming: seq<Artist>, i: nat, fold: Folding)
    requires i < |incoming|
    ensures Collect(list, Named(incoming[i..]), NameKey(fold), LIMIT) ==
      Collect(if incoming[i].name == "" then list else Append(list, incoming[i], NameKey(fold), LIMIT),
              Named(incoming[i + 1..]), NameKey(fold), LIMIT)
  {
    hide Append;
    assert incoming[i..][0] == incoming[i] && incoming[i..][1..] == incoming[i + 1..];
  }

  method MergeStrings(current: seq<string>, incoming: seq<string>, fold: Folding,
                      limit: nat) returns (merged: seq<string>)
    ensures merged == Collect(current, Usable(incoming), fold, limit)
  {
    hide Trim, Collect, Usable;
    merged := current;
    assert incoming[0..] == incoming;
    for i := 0 to |incoming|
      invariant Collect(current, Usable(incoming), fold, limit) == Collect(merged, Usable(incoming[i..]), fold, limit)
    {
      CollectUsable(merged, incoming, i, fold, limit);
      var value := Trim(incoming[i]);
      if value != "" {
        var duplicate := false;
        for k := 0 to |merged|
          invariant duplicate <==> exists j :: 0 <= j < k && fold(merged[j]) == fold(value)
        {
          if fold(merged[k]) == fold(value) {
            duplicate := true;
            break;
          }
        }
        if !duplicate && |merged| < limit {
          merged := merged + [value];
        }
      }
    }
    NothingToCollect(merged, incoming, fold, limit);
  }

  lemma NothingToCollect(list: seq<string>, incoming: seq<string>, fold: Folding, limit: nat)
    ensures Collect(list, Usable(incoming[|incoming|..]), fold, limit) == list
  {
  }

  lemma NobodyToCollect(list: seq<Artist>, incoming: seq<Artist>, fold: Folding)
    ensures Collect(list, Named(incoming[|incoming|..]), NameKey(fold), LIMIT) == list
  {
  }

  class Destination {
    const fold: Folding
    const valid: Acceptance
    var value: Result

    constructor (fold: Folding, valid: Acceptance)
      ensures this.fold == fold && this.valid == valid && value == EMPTY
    {
      this.fold, this.valid, value := fold, valid, EMPTY;
    }

    method Merge(r: Result)
      modifies this
      ensures value == Merged(old(value), r, fold, valid)
    {
      if r.artist != "" && r.provider != "wikimedia" {
        value := value.(artist := r.artist);
      }
      if value.artistUrl == "" && r.artistUrl != "" {
        value := value.(artistUrl := r.artistUrl);
      }
      if value.biography == "" {
        value := value.(biography := r.biography);
      }
      var genres := MergeStrings(value.genres, r.genres, fold, LIMIT);
      value := value.(genres := genres);
      var related := MergeRelated(value.related, r.related, fold);
      value := value.(related := related);
      if valid(r.image) && (value.image.url == "" || r.provider == "wikimedia") {
        value := value.(image := r.image);
      }
    }
  }

  method MergeRelated(current: seq<Artist>, incoming: seq<Artist>, fold: Folding) returns (merged: seq<Artist>)
    ensures merged == Collect(current, Named(incoming), NameKey(fold), LIMIT)
  {
    hide Collect, Named;
    merged := current;
    assert incoming[0..] == incoming;
    for i := 0 to |incoming|
      invariant Collect(current, Named(incoming), NameKey(fold), LIMIT)
        == Collect(merged, Named(incoming[i..]), NameKey(fold), LIMIT)
    {
      CollectNamed(merged, incoming, i, fold);
      var artist := incoming[i];
      var duplicate := false;
      for k := 0 to |merged|
        invariant duplicate <==> exists j :: 0 <= j < k && fold(merged[j].name) == fold(artist.name)
      {
        if fold(merged[k].name) == fold(artist.name) {
          duplicate := true;
          break;
        }
      }
      if !duplicate && artist.name != "" && |merged| < LIMIT {
        merged := merged + [artist];
      }
    }
    NobodyToCollect(merged, incoming, fold);
  }
}
