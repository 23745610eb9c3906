/**
 The preferences of the auto-queue: from a user's listening history, from
 configured seeds, or from what is known about the last artist.
 */
module Preferences {
  import opened Text
  import opened TitleParser
  import opened WeightedPick
  import opened Wrappers
  import Positions
  import ProviderMerge

  /** Lower-casing of names. */
  type Lowering = string -> string

  const KEPT: nat := 40

  const SEED_WEIGHT := 10

  // ----- counting -----

  /** The artists of the titles that have one. */
  function ArtistsOf(titles: seq<string>): seq<string> {
    if |titles| == 0 then []
    else
      var artist := Trim(Parsed(titles[|titles| - 1]).artist);
      ArtistsOf(titles[..|titles| - 1]) + if artist != "" then [artist] else []
  }

  function Occurrences(names: seq<string>, lower: Lowering, key: string): nat {
    if |names| == 0 then 0
    else Occurrences(names[..|names| - 1], lower, key) + if lower(names[|names| - 1]) == key then 1 else 0
  }

  function GenresOf(genres: map<string, seq<string>>, key: string): seq<string> {
    if key in genres then genres[key] else []
  }

  /** The genres of the artists, one artist after the other. */
  function GenresHeard(artists: seq<string>, genres: map<string, seq<string>>, lower: Lowering): seq<string> {
    if |artists| == 0 then []
    else GenresHeard(artists[..|artists| - 1], genres, lower) + GenresOf(genres, lower(artists[|artists| - 1]))
  }

  function Bumped(table: map<string, int>, key: string): map<string, int> {
    table[key := Old(table, key) + 1]
  }

  /** The table holds exactly the names that occur, with how often. */
  ghost predicate Counts(table: map<string, int>, names: seq<string>, lower: Lowering) {
    forall key :: (key in table <==> Occurrences(names, lower, key) > 0)
                  && (key in table ==> table[key] == Occurrences(names, lower, key))
  }

  /** The labels after those of some genres: each is the last genre that has its key. */
  function GenreLabels(given: seq<string>, lower: Lowering, labels: map<string, string>): map<string, string> {
    if |given| == 0 then labels
    else
      var genre := given[|given| - 1];
      GenreLabels(given[..|given| - 1], lower, labels)["genre:" + lower(genre) := genre]
  }

  /** The labels of the artists and their genres: artist by artist, the later one overwrites. */
  function LabelsOf(artists: seq<string>, genres: map<string, seq<string>>, lower: Lowering): map<string, string> {
    if |artists| == 0 then map[]
    else
      var artist := artists[|artists| - 1];
      GenreLabels(GenresOf(genres, lower(artist)), lower,
                  LabelsOf(artists[..|artists| - 1], genres, lower)[lower(artist) := artist])
  }

  lemma NameCounted(table: map<string, int>, names: seq<string>, name: string, lower: Lowering)
    requires Counts(table, names, lower)
    ensures Counts(Bumped(table, lower(name)), names + [name], lower)
  {
    assert (names + [name])[..|names|] == names;
  }

  method CountGenres(given: seq<string>, lower: Lowering, counts0: map<string, int>, labels0: map<string, string>,
                     ghost heard: seq<string>)
    returns (counts: map<string, int>, labels: map<string, string>)
    requires Counts(counts0, heard, lower)
    ensures Counts(counts, heard + given, lower) && labels == GenreLabels(given, lower, labels0)
  {
    hide Counts;
    counts, labels := counts0, labels0;
    assert heard + given[..0] == heard;
    for i := 0 to |given|
      invariant Counts(counts, heard + given[..i], lower) && labels == GenreLabels(given[..i], lower, labels0)
    {
      NameCounted(counts, heard + given[..i], given[i], lower);
      assert heard + given[..i + 1] == heard + given[..i] + [given[i]] && given[..i + 1][..i] == given[..i];
      var key := lower(given[i]);
      labels := labels["genre:" + key := given[i]];
      counts := Bumped(counts, key);
    }
    assert given[..|given|] == given;
  }

  method CountNames(artists: seq<string>, genres: map<string, seq<string>>, lower: Lowering)
    returns (artistCounts: map<string, int>, genreCounts: map<string, int>, labels: map<string, string>)
    ensures Counts(artistCounts, artists, lower) && Counts(genreCounts, GenresHeard(artists, genres, lower), lower)
    ensures labels == LabelsOf(artists, genres, lower)
  {
    artistCounts, genreCounts, labels := map[], map[], map[];
    for i := 0 to |artists|
      invariant Counts(artistCounts, artists[..i], lower)
      invariant Counts(genreCounts, GenresHeard(artists[..i], genres, lower), lower)
      invariant labels == LabelsOf(artists[..i], genres, lower)
    {
      hide Counts, GenreLabels;
      NameCounted(artistCounts, artists[..i], artists[i], lower);
      assert artists[..i + 1] == artists[..i] + [artists[i]] && artists[..i + 1][..i] == artists[..i];
      var key := lower(artists[i]);
      labels := labels[key := artists[i]];
      artistCounts := Bumped(artistCounts, key);
      genreCounts, labels :=
        CountGenres(GenresOf(genres, key), lower, genreCounts, labels, GenresHeard(artists[..i], genres, lower));
    }
    assert artists[..|artists|] == artists;
  }

  lemma {:induction false} OccursSomewhere(names: seq<string>, lower: Lowering, key: string)
    ensures Occurrences(names, lower, key) > 0 <==> exists i :: 0 <= i < |names| && lower(names[i]) == key
    decreases |names|
  {
    if |names| > 0 {
      OccursSomewhere(names[..|names| - 1], lower, key);
    }
  }

  // ----- labels -----

  /** Every label is an artist or a genre that was heard, stored under its own key. */
  predicate Sourced(labels: map<string, string>, artists: seq<string>, heard: seq<string>, lower: Lowering) {
    forall key :: key in labels ==>
      var name := lower(labels[key]);
      || (name == key && Occurrences(artists, lower, key) > 0)
      || ("genre:" + name == key && Occurrences(heard, lower, name) > 0)
  }

  /** Every artist and every genre that was heard has a label. */
  ghost predicate Labelled(labels: map<string, string>, artists: seq<string>, heard: seq<string>, lower: Lowering) {
    && (forall key :: Occurrences(artists, lower, key) > 0 ==> key in labels)
    && (forall key :: Occurrences(heard, lower, key) > 0 ==> "genre:" + key in labels)
  }

  lemma ArtistLabelled(labels: map<string, string>, artists: seq<string>, heard: seq<string>, lower: Lowering,
                       name: string)
    requires Sourced(labels, artists, heard, lower) && Labelled(labels, artists, heard, lower)
    ensures Sourced(labels[lower(name) := name], artists + [name], heard, lower)
    ensures Labelled(labels[lower(name) := name], artists + [name], heard, lower)
  {
    assert (artists + [name])[..|artists|] == artists;
  }

  lemma GenreLabelled(labels: map<string, string>, artists: seq<string>, heard: seq<string>, lower: Lowering,
                      name: string)
    requires Sourced(labels, artists, heard, lower) && Labelled(labels, artists, heard, lower)
    ensures Sourced(labels["genre:" + lower(name) := name], artists, heard + [name], lower)
    ensures Labelled(labels["genre:" + lower(name) := name], artists, heard + [name], lower)
  {
    assert (heard + [name])[..|heard|] == heard;
  }

  lemma {:induction false} GenresLabelled(given: seq<string>, labels: map<string, string>, artists: seq<string>,
                                          heard: seq<string>, lower: Lowering)
    requires Sourced(labels, artists, heard, lower) && Labelled(labels, artists, heard, lower)
    ensures Sourced(GenreLabels(given, lower, labels), artists, heard + given, lower)
    ensures Labelled(GenreLabels(given, lower, labels), artists, heard + given, lower)
    decreases |given|
  {
    hide Sourced, Labelled;
    if |given| == 0 {
      assert heard + given == heard;
    } else {
      var front, genre := given[..|given| - 1], given[|given| - 1];
      GenresLabelled(front, labels, artists, heard, lower);
      GenreLabelled(GenreLabels(front, lower, labels), artists, heard + front, lower, genre);
      assert heard + front + [genre] == heard + given;
    }
  }

  lemma {:induction false} AllLabelled(artists: seq<string>, genres: map<string, seq<string>>, lower: Lowering)
    ensures Sourced(LabelsOf(artists, genres, lower), artists, GenresHeard(artists, genres, lower), lower)
    ensures Labelled(LabelsOf(artists, genres, lower), artists, GenresHeard(artists, genres, lower), lower)
    decreases |artists|
  {
    if |artists| > 0 {
      var front, artist := artists[..|artists| - 1], artists[|artists| - 1];
      assert front + [artist] == artists;
      OneMoreArtist(front, artist, genres, lower);
      hide Sourced, Labelled, GenreLabels, LabelsOf, GenresHeard, GenresOf;
      AllLabelled(front, genres, lower);
      OneMoreLabelled(LabelsOf(front, genres, lower), front, GenresHeard(front, genres, lower), lower, artist,
                      GenresOf(genres, lower(artist)));
    }
  }

  lemma OneMoreArtist(artists: seq<string>, artist: string, genres: map<string, seq<string>>, lower: Lowering)
    ensures GenresHeard(artists + [artist], genres, lower)
         == GenresHeard(artists, genres, lower) + GenresOf(genres, lower(artist))
    ensures LabelsOf(artists + [artist], genres, lower)
         == GenreLabels(GenresOf(genres, lower(artist)), lower,
                        LabelsOf(artists, genres, lower)[lower(artist) := artist])
  {
    hide GenreLabels, GenresOf;
    assert (artists + [artist])[..|artists|] == artists;
  }

  lemma OneMoreLabelled(labels: map<string, string>, artists: seq<string>, heard: seq<string>, lower: Lowering,
                        artist: string, given: seq<string>)
    requires Sourced(labels, artists, heard, lower) && Labelled(labels, artists, heard, lower)
    ensures var labels' := GenreLabels(given, lower, labels[lower(artist) := artist]);
      && Sourced(labels', artists + [artist], heard + given, lower)
      && Labelled(labels', artists + [artist], heard + given, lower)
  {
    hide Sourced, Labelled, GenreLabels;
    ArtistLabelled(labels, artists, heard, lower, artist);
    GenresLabelled(given, labels[lower(artist) := artist], artists + [artist], heard, lower);
  }

  /** The entry of a key has a name that lower-cases to the name in the key. */
  predicate NamesItself(key: string, merged: map<string, int>, labels: map<string, string>, lower: Lowering)
    requires key in merged
  {
    lower(Entry(key, merged, labels).name) == KindAndName(key).1
  }

  lemma KeysSplit(name: string)
    ensures KindAndName("artist:" + name) == ("artist", name)
    ensures KindAndName("genre:" + name) == ("genre", name)
  {
    assert "artist" + ":" == "artist:" && "genre" + ":" == "genre:";
    FirstColon("artist", name);
    FirstColon("genre", name);
  }

  lemma FirstColon(kind: string, name: string)
    requires ':' !in kind
    ensures IndexOf(kind + ":" + name, ":") == Some(|kind|)
    ensures KindAndName(kind + ":" + name) == (kind, name)
  {
    var key := kind + ":" + name;
    assert At(key, ":", |kind|);
    var k := IndexOf(key, ":").value;
    assert key[k..k + 1] == ":" && key[k] == ':';
    assert forall i :: 0 <= i < |kind| ==> key[i] == kind[i];
    assert key[..|kind|] == kind && key[|kind| + 1..] == name;
  }

  /** An artist and a genre share a label if the artist reads "genre:" and the genre, up to case. */
  predicate ShareLabel(artistCounts: map<string, int>, genreCounts: map<string, int>, genre: string) {
    "genre:" + genre in artistCounts && genre in genreCounts
  }

  /** The counts and the profile of what a user listened to. */
  ghost predicate Profiled(artists: seq<string>, genres: map<string, seq<string>>, lower: Lowering,
                           artistCounts: map<string, int>, genreCounts: map<string, int>, merged: map<string, int>)
  {
    && Counts(artistCounts, artists, lower) && Counts(genreCounts, GenresHeard(artists, genres, lower), lower)
    && IsProfile(merged, artistCounts, genreCounts)
  }

  lemma SameName(kind: string, a: string, b: string)
    requires kind + a == kind + b
    ensures a == b
  {
    assert (kind + a)[|kind|..] == a && (kind + b)[|kind|..] == b;
  }

  lemma ArtistName(artists: seq<string>, genres: map<string, seq<string>>, lower: Lowering, artistCounts: map<string,
                   int>,
                   genreCounts: map<string, int>, merged: map<string, int>, name: string)
    requires Profiled(artists, genres, lower, artistCounts, genreCounts, merged) && name in artistCounts
    ensures "artist:" + name in merged
    ensures var labels := LabelsOf(artists, genres, lower);
      && name in labels && Entry("artist:" + name, merged, labels).name == labels[name]
      && KindAndName("artist:" + name).1 == name
      && (lower(labels[name]) != name ==> lower(labels[name]) in genreCounts && "genre:" + lower(labels[name]) == name)
  {
    KeysSplit(name);
    AllLabelled(artists, genres, lower);
    assert "artist:" + name in merged.Keys;
  }

  lemma GenreName(artists: seq<string>, genres: map<string, seq<string>>, lower: Lowering, artistCounts: map<string,
                  int>,
                  genreCounts: map<string, int>, merged: map<string, int>, name: string)
    requires Profiled(artists, genres, lower, artistCounts, genreCounts, merged) && name in genreCounts
    ensures "genre:" + name in merged
    ensures var labels, key := LabelsOf(artists, genres, lower), "genre:" + name;
      && key in labels && Entry(key, merged, labels).name == labels[key] && KindAndName(key).1 == name
      && (lower(labels[key]) != name ==> key in artistCounts && lower(labels[key]) == key)
  {
    KeysSplit(name);
    AllLabelled(artists, genres, lower);
    assert "genre:" + name in merged.Keys;
    var key := "genre:" + name;
    var spelled := lower(LabelsOf(artists, genres, lower)[key]);
    if "genre:" + spelled == key {
      SameName("genre:", spelled, name);
    }
  }

  /** If they share a label, exactly one of the two entries has a name of its own; the other has that name too. */
  lemma SharedLabel(artists: seq<string>, genres: map<string, seq<string>>, lower: Lowering, artistCounts: map<string,
                    int>,
                    genreCounts: map<string, int>, merged: map<string, int>, genre: string)
    requires Profiled(artists, genres, lower, artistCounts, genreCounts, merged)
    requires ShareLabel(artistCounts, genreCounts, genre)
    ensures "artist:" + ("genre:" + genre) in merged && "genre:" + genre in merged
    ensures var artist, labels := "artist:" + ("genre:" + genre), LabelsOf(artists, genres, lower);
      && Entry(artist, merged, labels).name == Entry("genre:" + genre, merged, labels).name
      && (NamesItself(artist, merged, labels, lower) <==> !NamesItself("genre:" + genre, merged, labels, lower))
  {
    ArtistName(artists, genres, lower, artistCounts, genreCounts, merged, "genre:" + genre);
    GenreName(artists, genres, lower, artistCounts, genreCounts, merged, genre);
    assert |"genre:" + genre| > |genre|;
  }

  /** So every entry has a name of its own if and only if no artist and genre share a label. */
  lemma NamesAreOwn(artists: seq<string>, genres: map<string, seq<string>>, lower: Lowering, artistCounts: map<string,
                    int>,
                    genreCounts: map<string, int>, merged: map<string, int>)
    requires Profiled(artists, genres, lower, artistCounts, genreCounts, merged)
    ensures var labels := LabelsOf(artists, genres, lower);
      (forall key :: key in merged ==> NamesItself(key, merged, labels, lower))
      <==> (forall genre :: !ShareLabel(artistCounts, genreCounts, genre))
  {
    var labels := LabelsOf(artists, genres, lower);
    forall key | key in merged && !NamesItself(key, merged, labels, lower)
      ensures exists genre :: ShareLabel(artistCounts, genreCounts, genre)
    {
      assert key in merged.Keys;
      if name :| name in artistCounts && key == "artist:" + name {
        ArtistName(artists, genres, lower, artistCounts, genreCounts, merged, name);
        assert ShareLabel(artistCounts, genreCounts, lower(labels[name]));
      } else {
        var name :| name in genreCounts && key == "genre:" + name;
        GenreName(artists, genres, lower, artistCounts, genreCounts, merged, name);
        assert ShareLabel(artistCounts, genreCounts, name);
      }
    }
    forall genre | ShareLabel(artistCounts, genreCounts, genre)
      ensures exists key :: key in merged && !NamesItself(key, merged, labels, lower)
    {
      SharedLabel(artists, genres, lower, artistCounts, genreCounts, merged, genre);
    }
  }

  /** A sole artist that shares a label with its one genre is listed under the name of the genre. */
  lemma SoleArtistIsMisnamed(artist: string, genre: string, lower: Lowering, artistCounts: map<string, int>,
                             genreCounts: map<string, int>, merged: map<string, int>)
    requires lower(artist) == "genre:" + lower(genre)
    requires Profiled([artist], map[lower(artist) := [genre]], lower, artistCounts, genreCounts, merged)
    ensures var key, labels := "artist:" + lower(artist), LabelsOf([artist], map[lower(artist) := [genre]], lower);
      key in merged && Entry(key, merged, labels).name == genre
  {
    LabelsOfOne(artist, genre, lower);
    OneCounted(artistCounts, artist, lower);
    hide LabelsOf, Entry, Profiled;
    ArtistName([artist], map[lower(artist) := [genre]], lower, artistCounts, genreCounts, merged, lower(artist));
  }

  /** For example an artist "Genre:Rock" whose genre is "Rock". */
  lemma ArtistIsMisnamed(lower: Lowering, artistCounts: map<string, int>, genreCounts: map<string, int>,
                         merged: map<string, int>)
    requires lower("Genre:Rock") == "genre:rock" && lower("Rock") == "rock"
    requires Profiled(["Genre:Rock"], map["genre:rock" := ["Rock"]], lower, artistCounts, genreCounts, merged)
    ensures var key, labels := "artist:genre:rock", LabelsOf(["Genre:Rock"], map["genre:rock" := ["Rock"]], lower);
      key in merged && Entry(key, merged, labels).name == "Rock"
  {
    hide LabelsOf, Entry, Profiled;
    assert "genre:" + "rock" == "genre:rock" && "artist:" + "genre:rock" == "artist:genre:rock";
    SoleArtistIsMisnamed("Genre:Rock", "Rock", lower, artistCounts, genreCounts, merged);
  }

  /** Labels of one artist with one genre. */
  lemma LabelsOfOne(artist: string, genre: string, lower: Lowering)
    ensures LabelsOf([artist], map[lower(artist) := [genre]], lower)
         == map[lower(artist) := artist]["genre:" + lower(genre) := genre]
  {
    var key, genres := lower(artist), map[lower(artist) := [genre]];
    assert [artist][..0] == [] && [genre][..0] == [] && GenresOf(genres, key) == [genre];
    assert LabelsOf([], genres, lower)[key := artist] == map[key := artist];
    assert GenreLabels([genre], lower, map[key := artist]) == map[key := artist]["genre:" + lower(genre) := genre];
  }

  lemma OneCounted(table: map<string, int>, name: string, lower: Lowering)
    requires Counts(table, [name], lower)
    ensures lower(name) in table
  {
    assert Occurrences([name], lower, lower(name)) > 0;
  }

  // ----- ranking -----

  /** The part of a key before its first colon, and the part after it. */
  function KindAndName(key: string): (string, string) {
    match IndexOf(key, ":")
    case None => (key, "")
    case Some(k) => (key[..k], key[k + 1..])
  }

  function Label(labels: map<string, string>, key: string): string {
    if key in labels then labels[key] else ""
  }

  function Entry(key: string, merged: map<string, int>, labels: map<string, string>): Preference
    requires key in merged
  {
    var (kind, name) := KindAndName(key);
    Preference(kind, Label(labels, if kind == "genre" then "genre:" + name else name), merged[key])
  }

  /** The entries of the heaviest keys, heaviest first; equal weights may come in any order. */
  ghost predicate Ranks(values: seq<Preference>, keys: seq<string>, merged: map<string, int>, labels: map<string,
                        string>)
  {
    && Positions.Distinct(keys) && |values| == |keys| && |keys| == (if |merged| < KEPT then |merged| else KEPT)
    && (forall i :: 0 <= i < |keys| ==> keys[i] in merged && values[i] == Entry(keys[i], merged, labels))
    && (forall i, j :: 0 <= i < j < |keys| ==> merged[keys[i]] >= merged[keys[j]])
    && (forall i, key :: 0 <= i < |keys| && key in merged && key !in keys ==> merged[keys[i]] >= merged[key])
  }

  lemma {:induction false} HeaviestExists(merged: map<string, int>, keys: set<string>)
    requires keys != {} && keys <= merged.Keys
    ensures exists key :: key in keys && forall other :: other in keys ==> merged[other] <= merged[key]
    decreases |keys|
  {
    var x :| x in keys;
    if keys == {x} {
      assert forall other :: other in keys ==> merged[other] <= merged[x];
    } else {
      var rest := keys - {x};
      HeaviestExists(merged, rest);
      var m :| m in rest && forall other :: other in rest ==> merged[other] <= merged[m];
      var key := if merged[x] >= merged[m] then x else m;
      forall other | other in keys ensures merged[other] <= merged[key] {
        if other != x {
          assert other in rest;
        }
      }
    }
  }

  /** The keys but those `remaining`, heaviest first. */
  ghost predicate Ranking(values: seq<Preference>, keys: seq<string>, remaining: set<string>,
                          merged: map<string, int>, labels: map<string, string>)
  {
    && remaining <= merged.Keys && |values| == |keys| == |merged| - |remaining|
    && Positions.Distinct(keys) && (forall key :: key in keys <==> key in merged && key !in remaining)
    && (forall i :: 0 <= i < |keys| ==> keys[i] in merged && values[i] == Entry(keys[i], merged, labels))
    && (forall i, j :: 0 <= i < j < |keys| ==> merged[keys[i]] >= merged[keys[j]])
    && (forall i, key :: 0 <= i < |keys| && key in remaining ==> merged[keys[i]] >= merged[key])
  }

  lemma RankNext(values: seq<Preference>, keys: seq<string>, remaining: set<string>,
                 merged: map<string, int>, labels: map<string, string>, key: string)
    requires Ranking(values, keys, remaining, merged, labels) && key in remaining
    requires forall other :: other in remaining ==> merged[other] <= merged[key]
    ensures Ranking(values + [Entry(key, merged, labels)], keys + [key], remaining - {key}, merged, labels)
  {
    hide Entry;
  }

  /** Keys left out of a cut ranking weigh no more than those kept. */
  lemma CutIsHeaviest(keys: seq<string>, merged: map<string, int>, n: nat, i: nat, key: string)
    requires n <= |keys| && i < n && key in keys && key !in keys[..n]
    requires forall i :: 0 <= i < |keys| ==> keys[i] in merged
    requires forall i, j :: 0 <= i < j < |keys| ==> merged[keys[i]] >= merged[keys[j]]
    ensures merged[keys[i]] >= merged[key]
  {
    var j :| 0 <= j < |keys| && keys[j] == key;
    assert forall m :: 0 <= m < n ==> keys[..n][m] == keys[m];
    assert j >= n;
  }

  lemma RankCut(values: seq<Preference>, keys: seq<string>, merged: map<string, int>, labels: map<string, string>)
    requires Ranking(values, keys, {}, merged, labels)
    ensures |values| > KEPT ==> Ranks(values[..KEPT], keys[..KEPT], merged, labels)
    ensures |values| <= KEPT ==> Ranks(values, keys, merged, labels)
  {
    hide Entry;
    if |values| > KEPT {
      var kept, few := keys[..KEPT], values[..KEPT];
      assert |merged| == |values| > KEPT;
      forall i | 0 <= i < KEPT ensures kept[i] in merged && few[i] == Entry(kept[i], merged, labels) {
        assert kept[i] == keys[i] && few[i] == values[i];
      }
      forall i, key | 0 <= i < KEPT && key in merged && key !in kept ensures merged[kept[i]] >= merged[key] {
        CutIsHeaviest(keys, merged, KEPT, i, key);
      }
    }
  }

  method Rank(merged: map<string, int>, labels: map<string, string>) returns (values: seq<Preference>)
    ensures exists keys :: Ranks(values, keys, merged, labels)
  {
    values := [];
    ghost var keys: seq<string> := [];
    var remaining := merged.Keys;
    assert |merged| == |merged.Keys|;
    while remaining != {}
      invariant Ranking(values, keys, remaining, merged, labels)
      decreases remaining
    {
      HeaviestExists(merged, remaining);
      var key :| key in remaining && forall other :: other in remaining ==> merged[other] <= merged[key];
      RankNext(values, keys, remaining, merged, labels, key);
      values, keys := values + [Entry(key, merged, labels)], keys + [key];
      remaining := remaining - {key};
    }
    RankCut(values, keys, merged, labels);
    if |values| > KEPT {
      values, keys := values[..KEPT], keys[..KEPT];
    }
  }

  /** What the list of a user's preferences is: the ranking of the profile of what the user listened to. */
  ghost predicate IsTaste(values: seq<Preference>, artists: seq<string>, genres: map<string, seq<string>>,
                          lower: Lowering)
  {
    exists artistCounts, genreCounts, merged, keys ::
      && Profiled(artists, genres, lower, artistCounts, genreCounts, merged)
      && Ranks(values, keys, merged, LabelsOf(artists, genres, lower))
  }

  method CollectArtists(titles: seq<string>) returns (artists: seq<string>)
    ensures artists == ArtistsOf(titles)
  {
    hide Parsed, Trim;
    artists := [];
    for i := 0 to |titles|
      invariant artists == ArtistsOf(titles[..i])
    {
      assert titles[..i + 1][..i] == titles[..i];
      var hint := ParseTitle(titles[i]);
      var artist := Trim(hint.artist);
      if artist != "" {
        artists := artists + [artist];
      }
    }
    assert titles[..|titles|] == titles;
  }

  /** Empty for a user without artists; otherwise led by the most frequent artist, with weight 11. */
  method UserPreferences(titles: seq<string>, genres: map<string, seq<string>>, lower: Lowering)
    returns (values: seq<Preference>)
    ensures Positive(values) && |values| <= 40
    ensures ArtistsOf(titles) == [] ==> values == []
    ensures ArtistsOf(titles) != [] ==>
      |values| > 0 && values[0].weight == 11 && IsTaste(values, ArtistsOf(titles), genres, lower)
  {
    var artists := CollectArtists(titles);
    if |artists| == 0 {
      return [];
    }
    hide ArtistsOf, IsProfile, IsTaste, LabelsOf;
    var artistCounts, genreCounts, labels := CountNames(artists, genres, lower);
    var merged := Profile(artistCounts, genreCounts);
    values := Rank(merged, labels);
    ghost var keys :| Ranks(values, keys, merged, labels);
    OccursSomewhere(artists, lower, lower(artists[0]));
    assert lower(artists[0]) in artistCounts;
    RankedWeights(values, keys, merged, labels, artistCounts, genreCounts);
    RankedIsTaste(values, artists, genres, lower, artistCounts, genreCounts, merged, keys);
  }

  lemma RankedIsTaste(values: seq<Preference>, artists: seq<string>, genres: map<string, seq<string>>, lower: Lowering,
                      artistCounts: map<string, int>, genreCounts: map<string, int>, merged: map<string, int>,
                      keys: seq<string>)
    requires Profiled(artists, genres, lower, artistCounts, genreCounts, merged)
    requires Ranks(values, keys, merged, LabelsOf(artists, genres, lower))
    ensures IsTaste(values, artists, genres, lower)
  {
  }

  lemma RankedWeights(values: seq<Preference>, keys: seq<string>, merged: map<string, int>, labels: map<string, string>,
                      artistCounts: map<string, int>, genreCounts: map<string, int>)
    requires Ranks(values, keys, merged, labels) && IsProfile(merged, artistCounts, genreCounts)
    requires artistCounts != map[]
    ensures Positive(values) && |values| <= KEPT && |values| > 0 && values[0].weight == 11
  {
    ProfileWeights(merged, artistCounts, genreCounts);
    hide IsProfile;
    var best :| best in merged && merged[best] == 11;
    assert best in merged.Keys && |merged| > 0;
    HeadIsHeaviest(values, keys, merged, labels, best);
    forall i | 0 <= i < |values| ensures values[i].weight >= 1 {
      assert values[i].weight == merged[keys[i]];
    }
  }

  lemma HeadIsHeaviest(values: seq<Preference>, keys: seq<string>, merged: map<string, int>, labels: map<string,
                       string>,
                       key: string)
    requires Ranks(values, keys, merged, labels) && key in merged && |merged| > 0
    ensures |values| == |keys| > 0 && keys[0] in merged && values[0].weight == merged[keys[0]] >= merged[key]
  {
    if key in keys {
      var i :| 0 <= i < |keys| && keys[i] == key;
    }
  }

  // ----- seeds -----

  function Marked(names: seq<string>, kind: string): seq<Preference> {
    seq(|names|, i requires 0 <= i < |names| => Preference(kind, names[i], SEED_WEIGHT))
  }

  predicate Separates(c: char) { c == ',' || c == '\n' }

  /** The nonempty parts between commas and line ends. */
  function Parts(value: string): seq<string>
    decreases |value|
  {
    if value == "" then []
    else if Separates(value[0]) then Parts(value[1..])
    else [value[..PartLength(value)]] + Parts(value[PartLength(value)..])
  }

  function PartLength(value: string): (n: nat)
    ensures n <= |value|
    ensures value != "" && !Separates(value[0]) ==> n > 0
  {
    if value != "" && !Separates(value[0]) then 1 + PartLength(value[1..]) else 0
  }

  /** The seeds, trimmed, without repetitions up to case. */
  function Seeds(value: string, lower: Lowering): seq<string> {
    ProviderMerge.FirstOccurrences(ProviderMerge.Usable(Parts(value)), lower)
  }

  predicate Seen(seen: set<string>, usable: seq<string>, lower: Lowering) {
    seen == set k | 0 <= k < |usable| :: lower(usable[k])
  }

  /** One more seed: it is kept unless one like it was seen. */
  lemma SeedNext(usable: seq<string>, part: string, lower: Lowering, seen: set<string>)
    requires Seen(seen, usable, lower)
    ensures var before := ProviderMerge.FirstOccurrences(usable, lower);
      ProviderMerge.FirstOccurrences(usable + [part], lower) == if lower(part) in seen then before else before + [part]
    ensures Seen(seen + {lower(part)}, usable + [part], lower)
  {
    var more := usable + [part];
    assert more[..|more| - 1] == usable;
    assert forall k :: 0 <= k < |usable| ==> more[k] == usable[k];
    if lower(part) in seen {
      var k :| 0 <= k < |usable| && lower(usable[k]) == lower(part);
      assert lower(more[k]) == lower(more[|more| - 1]);
    }
  }

  lemma {:induction false} UsableConcat(a: seq<string>, b: seq<string>)
    ensures ProviderMerge.Usable(a + b) == ProviderMerge.Usable(a) + ProviderMerge.Usable(b)
    decreases |a|
  {
    hide Trim;
    if |a| == 0 {
      assert a + b == b;
    } else {
      assert (a + b)[1..] == a[1..] + b;
      UsableConcat(a[1..], b);
    }
  }

  lemma UsableNext(parts: seq<string>, i: nat)
    requires i < |parts|
    ensures ProviderMerge.Usable(parts[..i + 1]) ==
      if Trim(parts[i]) == "" then ProviderMerge.Usable(parts[..i])
      else ProviderMerge.Usable(parts[..i]) + [Trim(parts[i])]
  {
    hide Trim;
    UsableConcat(parts[..i], [parts[i]]);
    assert parts[..i + 1] == parts[..i] + [parts[i]];
  }

  method SplitSeeds(value: string, lower: Lowering) returns (result: seq<string>)
    ensures result == Seeds(value, lower)
  {
    hide Trim, ProviderMerge.FirstOccurrences, ProviderMerge.Usable, Parts, Seen;
    var parts := Parts(value);
    var seen: set<string> := {};
    result := [];
    NoSeeds(lower);
    for i := 0 to |parts|
      invariant Seen(seen, ProviderMerge.Usable(parts[..i]), lower)
      invariant result == ProviderMerge.FirstOccurrences(ProviderMerge.Usable(parts[..i]), lower)
    {
      var part := Trim(parts[i]);
      var key := lower(part);
      UsableNext(parts, i);
      SeedNext(ProviderMerge.Usable(parts[..i]), part, lower, seen);
      if part != "" {
        assert key in seen ==> seen + {key} == seen;
        if key !in seen {
          seen := seen + {key};
          result := result + [part];
        }
      }
    }
    assert parts[..|parts|] == parts;
  }

  lemma NoSeeds(lower: Lowering)
    ensures ProviderMerge.FirstOccurrences([], lower) == [] && ProviderMerge.Usable([]) == [] && Seen({}, [], lower)
  {
  }

  method SeedPreferences(artists: string, genres: string, lower: Lowering) returns (result: seq<Preference>)
    ensures Positive(result)
    ensures result == Marked(Seeds(artists, lower), "artist") + Marked(Seeds(genres, lower), "genre")
  {
    hide Seeds;
    var first := SplitSeeds(artists, lower);
    var second := SplitSeeds(genres, lower);
    result := MarkAll(first, "artist", []);
    result := MarkAll(second, "genre", result);
    assert [] + Marked(first, "artist") == Marked(first, "artist");
  }

  method MarkAll(names: seq<string>, kind: string, before: seq<Preference>) returns (result: seq<Preference>)
    ensures result == before + Marked(names, kind)
  {
    result := before;
    for i := 0 to |names|
      invariant result == before + Marked(names[..i], kind)
    {
      result := result + [Preference(kind, names[i], SEED_WEIGHT)];
      assert Marked(names[..i + 1], kind) == Marked(names[..i], kind) + [Preference(kind, names[i], SEED_WEIGHT)];
    }
    assert names[..|names|] == names;
  }

  // ----- related artists -----

  /** What is stored about an artist. */
  datatype Enrichment = Enrichment(genres: seq<string>, related: seq<string>)

  function NotBlank(names: seq<string>): seq<string> {
    if |names| == 0 then []
    else NotBlank(names[..|names| - 1]) + if Trim(names[|names| - 1]) != "" then [names[|names| - 1]] else []
  }

  lemma {:induction false} NotBlankExactly(names: seq<string>)
    ensures forall name :: name in NotBlank(names) <==> name in names && Trim(name) != ""
    decreases |names|
  {
    hide Trim;
    if |names| > 0 {
      var front, last := names[..|names| - 1], names[|names| - 1];
      NotBlankExactly(front);
      assert names == front + [last];
    }
  }

  method KeepNotBlank(names: seq<string>) returns (kept: seq<string>)
    ensures kept == NotBlank(names)
  {
    hide Trim;
    kept := [];
    for i := 0 to |names|
      invariant kept == NotBlank(names[..i])
    {
      assert names[..i + 1][..i] == names[..i];
      if Trim(names[i]) != "" {
        kept := kept + [names[i]];
      }
    }
    assert names[..|names|] == names;
  }

  /** From the title of the last queued item, if there is one and it names an artist that is known. */
  method RelatedPreferences(last: Option<string>, known: string -> Option<Enrichment>) returns (values: seq<Preference>)
    ensures Positive(values)
    ensures values ==
      if last.Some? && Parsed(last.value).artist != "" && known(Parsed(last.value).artist).Some?
      then var e := known(Parsed(last.value).artist).value;
        Marked(NotBlank(e.genres), "genre") + Marked(NotBlank(e.related), "artist")
      else []
  {
    hide Parsed, NotBlank;
    if last.None? {
      return [];
    }
    var hint := ParseTitle(last.value);
    if hint.artist == "" || known(hint.artist).None? {
      return [];
    }
    var e := known(hint.artist).value;
    var genres := KeepNotBlank(e.genres);
    var related := KeepNotBlank(e.related);
    values := MarkAll(genres, "genre", []);
    values := MarkAll(related, "artist", values);
    assert [] + Marked(genres, "genre") == Marked(genres, "genre");
  }
}
