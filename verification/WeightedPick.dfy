/** Preference weights and the weighted draw over them. */
module WeightedPick {
  import opened Arithmetic

  datatype Preference = Preference(kind: string, name: string, weight: int)

  function Total(values: seq<Preference>): int {
    if |values| == 0 then 0 else Total(values[..|values| - 1]) + values[|values| - 1].weight
  }

  predicate Positive(values: seq<Preference>) {
    forall i :: 0 <= i < |values| ==> values[i].weight >= 1
  }

  /** Longer prefixes weigh more, by at least one an entry. */
  lemma {:induction false} PrefixTotals(values: seq<Preference>, i: nat, j: nat)
    requires Positive(values) && i <= j <= |values|
    ensures Total(values[..i]) + j - i <= Total(values[..j])
    decreases j - i
  {
    if i < j {
      PrefixTotals(values, i, j - 1);
      assert values[..j][..j - 1] == values[..j - 1];
    }
  }

  lemma {:induction false} PositiveTotal(values: seq<Preference>)
    requires Positive(values)
    ensures |values| <= Total(values)
    decreases |values|
  {
    if |values| > 0 {
      PositiveTotal(values[..|values| - 1]);
    }
  }

  /** The entry whose share of 0..total contains the draw; no draw falls through. */
  method Pick(values: seq<Preference>, draw: nat) returns (k: nat)
    requires Positive(values) && draw < Total(values)
    ensures k < |values| && Draws(values, draw, k)
  {
    var choice := draw as int;
    assert values[..|values|] == values;
    for i := 0 to |values|
      invariant choice == draw - Total(values[..i]) && choice >= 0
    {
      assert values[..i + 1][..i] == values[..i];
      choice := choice - values[i].weight;
      if choice < 0 {
        return i;
      }
    }
    assert false;
  }

  /** The share of entry k is the stretch between the totals before and after it. */
  predicate Draws(values: seq<Preference>, draw: int, k: nat) {
    k < |values| && Total(values[..k]) <= draw < Total(values[..k + 1])
  }

  /** Every draw selects at most one entry. */
  lemma DrawsOnce(values: seq<Preference>, draw: int, j: nat, k: nat)
    requires Positive(values) && Draws(values, draw, j) && Draws(values, draw, k)
    ensures j == k
  {
    if j < k {
      PrefixTotals(values, j + 1, k);
    } else if k < j {
      PrefixTotals(values, k + 1, j);
    }
  }

  predicate Within(d: int, from: int, n: nat) { from <= d < from + n }

  function Interval(from: int, n: nat): set<int> {
    set d: int | from <= d < from + n && Within(d, from, n)
  }

  lemma {:induction false} IntervalSize(from: int, n: nat)
    ensures |Interval(from, n)| == n
    decreases n
  {
    if n > 0 {
      IntervalSize(from, n - 1);
      var last := from + n - 1;
      assert forall d :: Within(d, from, n) <==> Within(d, from, n - 1) || d == last;
      assert Interval(from, n) == Interval(from, n - 1) + {last};
    } else {
      assert Interval(from, n) == {};
    }
  }

  lemma ShareIsInterval(values: seq<Preference>, k: nat, d: int)
    requires Positive(values) && k < |values|
    ensures 0 <= d < Total(values) && Draws(values, d, k)
      <==> Within(d, Total(values[..k]), values[k].weight)
  {
    PrefixTotals(values, 0, k);
    PrefixTotals(values, k + 1, |values|);
    assert values[..|values|] == values;
    assert values[..k + 1][..k] == values[..k];
  }

  /** Of the `total` equally likely draws exactly `weight` select an entry. */
  lemma PickIsExact(values: seq<Preference>, k: nat)
    requires Positive(values) && k < |values|
    ensures |set d | 0 <= d < Total(values) && Draws(values, d, k)| == values[k].weight
  {
    hide Draws, Total;
    var from, n := Total(values[..k]), values[k].weight;
    IntervalSize(from, n);
    forall d ensures 0 <= d < Total(values) && Draws(values, d, k) <==> Within(d, from, n) {
      ShareIsInterval(values, k, d);
    }
    assert (set d | 0 <= d < Total(values) && Draws(values, d, k)) == Interval(from, n);
  }

  // ----- weights from counts -----

  /** The largest count, or 0 if no count is positive. */
  predicate IsMaximum(counts: map<string, int>, m: int) {
    && m >= 0
    && (forall name :: name in counts ==> counts[name] <= m)
    && (m == 0 || exists name :: name in counts && counts[name] == m)
  }

  function Weight(count: int, maximum: int): int
    requires maximum > 0 && count >= 0
  {
    1 + count * 10 / maximum
  }

  function Old(destination: map<string, int>, key: string): int {
    if key in destination then destination[key] else 0
  }

  predicate HasName(counts: map<string, int>, prefix: string, key: string) {
    prefix <= key && key[|prefix|..] in counts
  }

  /** Every count's weight is added under its prefixed name, and nothing else changes. */
  predicate Merges(destination: map<string, int>, prefix: string, counts: map<string, int>,
                   merged: map<string, int>, maximum: int)
    requires forall name :: name in counts ==> counts[name] >= 0
  {
    if maximum <= 0 then merged == destination
    else
      && merged.Keys == destination.Keys + (set name | name in counts :: prefix + name)
      && forall key :: key in merged ==>
           merged[key] == Old(destination, key) +
             if HasName(counts, prefix, key) then Weight(counts[key[|prefix|..]], maximum) else 0
  }

  /** Adds the weight of every count under its prefixed name, scaled to the largest count. */
  method MergeNormalized(destination: map<string, int>, prefix: string, counts: map<string, int>)
    returns (merged: map<string, int>, maximum: int)
    requires forall name :: name in counts ==> counts[name] >= 0
    ensures IsMaximum(counts, maximum) && Merges(destination, prefix, counts, merged, maximum)
  {
    maximum := LargestCount(counts);
    merged := destination;
    if maximum == 0 {
      return;
    }
    var remaining := counts.Keys;
    ghost var done: set<string> := {};
    while remaining != {}
      invariant remaining <= counts.Keys && done == counts.Keys - remaining
      invariant merged.Keys == destination.Keys + set name | name in done :: prefix + name
      invariant forall key :: key in merged ==>
        merged[key] == Old(destination, key) +
          if prefix <= key && key[|prefix|..] in done then Weight(counts[key[|prefix|..]], maximum) else 0
      decreases remaining
    {
      var name :| name in remaining;
      var key := prefix + name;
      assert prefix <= key && key[|prefix|..] == name;
      forall other | prefix <= other && other != key ensures other[|prefix|..] != name {
        assert other == prefix + other[|prefix|..];
      }
      merged := merged[key := Old(merged, key) + Weight(counts[name], maximum)];
      remaining := remaining - {name};
      done := done + {name};
    }
    assert done == counts.Keys;
  }

  method LargestCount(counts: map<string, int>) returns (maximum: int)
    ensures IsMaximum(counts, maximum)
  {
    maximum := 0;
    var remaining := counts.Keys;
    while remaining != {}
      invariant remaining <= counts.Keys && maximum >= 0
      invariant forall name :: name in counts && name !in remaining ==> counts[name] <= maximum
      invariant maximum == 0 || exists name :: name in counts && counts[name] == maximum
      decreases remaining
    {
      var name :| name in remaining;
      if counts[name] > maximum {
        maximum := counts[name];
      }
      remaining := remaining - {name};
    }
  }

  /** Scaled weights lie in 1..11, keep the order of the counts, and give the largest count exactly 11. */
  lemma WeightsAreScaled(counts: map<string, int>, maximum: int, a: string, b: string)
    requires IsMaximum(counts, maximum) && maximum > 0
    requires a in counts && b in counts && 0 <= counts[a] <= counts[b]
    ensures 1 <= Weight(counts[a], maximum) <= Weight(counts[b], maximum) <= 11
    ensures counts[b] == maximum <==> Weight(counts[b], maximum) == 11
  {
    Quotients(counts[a], counts[b], maximum);
  }

  /** What weight w has above 1 is ten times the share of the count in the largest one, rounded down. */
  predicate Proportional(w: int, count: int, top: int) {
    top * (w - 1) <= 10 * count < top * w
  }

  lemma WeightIsProportional(count: int, maximum: int)
    requires maximum > 0 && count >= 0
    ensures Proportional(Weight(count, maximum), count, maximum)
  {
    var q := count * 10 / maximum;
    QuotientBounds(count * 10, maximum, q);
  }

  lemma QuotientBounds(x: int, m: int, q: int)
    requires m > 0 && q == x / m
    ensures m * q <= x < m * (q + 1)
  {
    assert x == m * q + x % m;
  }

  lemma Quotients(a: int, b: int, m: int)
    requires 0 <= a <= b <= m && m > 0
    ensures 0 <= a * 10 / m <= b * 10 / m <= 10
    ensures b * 10 / m == 10 <==> b == m
  {
    QuotientOrder(a * 10, b * 10, m);
    QuotientAtLeast(a * 10, 0, m);
    QuotientBelow(b * 10, 11, m);
    if b < m {
      QuotientBelow(b * 10, 10, m);
    } else {
      QuotientAtLeast(b * 10, 10, m);
    }
  }

  /** The weight of every artist and every genre of a user, under keys that never collide. */
  ghost predicate IsProfile(merged: map<string, int>, artists: map<string, int>, genres: map<string, int>) {
    && merged.Keys == (set name | name in artists :: "artist:" + name) + (set name | name in genres :: "genre:" + name)
    && (exists top :: IsMaximum(artists, top) && Scaled(merged, "artist:", artists, top))
    && (exists top :: IsMaximum(genres, top) && Scaled(merged, "genre:", genres, top))
  }

  ghost predicate Scaled(merged: map<string, int>, prefix: string, counts: map<string, int>, top: int) {
    forall name :: name in counts ==>
      counts[name] >= 1 && top >= 1 && prefix + name in merged && merged[prefix + name] == Weight(counts[name], top)
  }

  lemma PrefixOf(prefix: string, name: string)
    ensures prefix <= prefix + name && (prefix + name)[|prefix|..] == name
  {
  }

  predicate Positives(counts: map<string, int>) {
    forall name :: name in counts ==> counts[name] >= 1
  }

  /** Where no key has the prefix yet, the weights are those of the counts. */
  lemma MergesScaled(destination: map<string, int>, prefix: string, counts: map<string, int>,
                     merged: map<string, int>, maximum: int)
    requires Positives(counts) && IsMaximum(counts, maximum) && Merges(destination, prefix, counts, merged, maximum)
    requires forall key :: key in destination ==> !(prefix <= key)
    ensures Scaled(merged, prefix, counts, maximum)
    ensures merged.Keys == destination.Keys + set name | name in counts :: prefix + name
    ensures forall key :: key in destination ==> merged[key] == destination[key]
  {
    hide Weight;
    PositiveMaximum(counts, maximum);
    forall name | name in counts
      ensures prefix + name in merged && merged[prefix + name] == Weight(counts[name], maximum)
    {
      PrefixOf(prefix, name);
      assert HasName(counts, prefix, prefix + name);
    }
    forall key | key in destination ensures merged[key] == destination[key] {
      assert !HasName(counts, prefix, key);
    }
  }

  lemma ScaledStays(before: map<string, int>, after: map<string, int>, prefix: string, counts: map<string, int>,
                    top: int)
    requires Scaled(before, prefix, counts, top)
    requires forall key :: key in before ==> key in after && after[key] == before[key]
    ensures Scaled(after, prefix, counts, top)
  {
    hide Weight;
  }

  lemma DifferentPrefix(name: string)
    ensures !("genre:" <= "artist:" + name)
  {
    assert ("artist:" + name)[0] == 'a';
  }

  /** The profile of a user: artists and genres never share a key. */
  method Profile(artists: map<string, int>, genres: map<string, int>) returns (merged: map<string, int>)
    requires Positives(artists) && Positives(genres)
    ensures IsProfile(merged, artists, genres)
  {
    hide Weight, IsMaximum, Merges, Scaled;
    var first, top := MergeNormalized(map[], "artist:", artists);
    MergesScaled(map[], "artist:", artists, first, top);
    forall key | key in first ensures !("genre:" <= key) {
      var name :| name in artists && key == "artist:" + name;
      DifferentPrefix(name);
    }
    var top2;
    merged, top2 := MergeNormalized(first, "genre:", genres);
    MergesScaled(first, "genre:", genres, merged, top2);
    ScaledStays(first, merged, "artist:", artists, top);
  }

  /** So all weights of a profile lie in 1..11, and the most frequent artist has weight 11. */
  lemma ProfileWeights(merged: map<string, int>, artists: map<string, int>, genres: map<string, int>)
    requires IsProfile(merged, artists, genres)
    ensures forall key :: key in merged ==> 1 <= merged[key] <= 11
    ensures artists != map[] ==> exists key :: key in merged && merged[key] == 11
  {
    var top :| IsMaximum(artists, top) && Scaled(merged, "artist:", artists, top);
    var top2 :| IsMaximum(genres, top2) && Scaled(merged, "genre:", genres, top2);
    hide Weight;
    forall key | key in merged ensures 1 <= merged[key] <= 11 {
      if name :| name in artists && key == "artist:" + name {
        WeightsAreScaled(artists, top, name, name);
      } else {
        var name :| name in genres && key == "genre:" + name;
        WeightsAreScaled(genres, top2, name, name);
      }
    }
    if artists != map[] {
      var any :| any in artists;
      var name :| name in artists && artists[name] == top;
      WeightsAreScaled(artists, top, name, name);
      assert "artist:" + name in merged;
    }
  }

  lemma MaximumIsUnique(counts: map<string, int>, a: int, b: int)
    requires IsMaximum(counts, a) && IsMaximum(counts, b)
    ensures a == b
  {
  }

  /** In a profile the weight of every artist and of every genre is proportional to its count among its kind. */
  lemma ProfileIsProportional(merged: map<string, int>, artists: map<string, int>, genres: map<string, int>,
                              topArtist: int, topGenre: int)
    requires IsProfile(merged, artists, genres) && IsMaximum(artists, topArtist) && IsMaximum(genres, topGenre)
    ensures forall name :: name in artists ==>
      "artist:" + name in merged && Proportional(merged["artist:" + name], artists[name], topArtist)
    ensures forall name :: name in genres ==>
      "genre:" + name in merged && Proportional(merged["genre:" + name], genres[name], topGenre)
  {
    var top :| IsMaximum(artists, top) && Scaled(merged, "artist:", artists, top);
    var top2 :| IsMaximum(genres, top2) && Scaled(merged, "genre:", genres, top2);
    MaximumIsUnique(artists, top, topArtist);
    MaximumIsUnique(genres, top2, topGenre);
    hide IsMaximum, IsProfile, Weight;
    ScaledIsProportional(merged, "artist:", artists, topArtist);
    ScaledIsProportional(merged, "genre:", genres, topGenre);
  }

  lemma ScaledIsProportional(merged: map<string, int>, prefix: string, counts: map<string, int>, top: int)
    requires Scaled(merged, prefix, counts, top)
    ensures forall name :: name in counts ==>
      prefix + name in merged && Proportional(merged[prefix + name], counts[name], top)
  {
    hide Weight;
    forall name | name in counts
      ensures prefix + name in merged && Proportional(merged[prefix + name], counts[name], top)
    {
      WeightIsProportional(counts[name], top);
    }
  }

  lemma PositiveMaximum(counts: map<string, int>, maximum: int)
    requires IsMaximum(counts, maximum) && forall name :: name in counts ==> counts[name] >= 1
    ensures maximum >= 0 && (maximum == 0 ==> counts == map[])
  {
    forall name | name in counts ensures maximum >= 1 {}
  }
}
