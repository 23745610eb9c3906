/**
 The auto-queue engine: whose turn it is, what to look for, and a bounded refill
 of the queue while others edit it.  Search results, what the database holds about
 users and artists, its failures and the random choices are left open.
 */
module AutoQueue {
  import opened Wrappers
  import opened Positions
  import opened QueueModel
  import QueueEffects
  import opened QueueStore
  import opened Rotation
  import opened Preferences
  import opened WeightedPick
  import TitleParser
  import TitlePrinting

  /** The users of one query; each appears once. */
  type Users = users: seq<User> | Distinct(users) witness []

  /** What a user listened to or liked, latest first, and the genres of artists. */
  datatype Taste = Taste(titles: seq<string>, genres: map<string, seq<string>>)

  type Tastes = map<User, Taste>

  function TasteOf(tastes: Tastes, u: User): Taste {
    if u in tastes then tastes[u] else Taste([], map[])
  }

  predicate HasTaste(tastes: Tastes, u: User) {
    ArtistsOf(TasteOf(tastes, u).titles) != []
  }

  datatype Mode =
    | SpecificSeeds(artists: string, genres: string)
    | RelatedLast(known: string -> Option<Enrichment>)
    | ActiveUsers(users: Users, tastes: Tastes)

  datatype Found = Found(url: string, title: string, channel: string)

  /** A random number below a bound. */
  type Dice = d: nat -> nat | forall n: nat :: n > 0 ==> d(n) < n witness (n: nat) => 0

  /**
   One attempt of a refill: transactions of others on the queue, the mode and what
   the database holds at that time, the random draw, what a tag discovery and a
   search would find, the id for a new item, and which accesses to the database
   fail: preferences after `outage` users, the addition, the marking of the turn.
   */
  datatype Try = Try(edits: seq<Transaction>, mode: Mode, outage: nat, dice: Dice,
                     discover: string -> Option<(string, string)>, search: string -> Option<Found>, id: Id,
                     addFails: bool, markFails: bool)

  /** What a refill goes by throughout: the limit of the queue, the title of its last item, and lower-casing. */
  datatype Terms = Terms(limit: int, last: Option<string>, lower: Lowering)

  /** How an attempt went; `Exhausted` and `Broken` end the refill. */
  datatype Tried = Added | NotAdded | Exhausted | Broken(added: bool)

  datatype Turned = Chosen(user: User, values: seq<Preference>) | Nobody | Lost

  datatype Choice = Values(values: seq<Preference>, user: Option<User>) | NoAnswer

  /** A track of the genre, if the draw was a genre and a discovery finds one. */
  function Discovered(p: Preference, t: Try): Option<(string, string)> {
    if p.kind == "genre" then t.discover(p.name) else None
  }

  /** What is searched for. */
  function Query(p: Preference, t: Try): string {
    match Discovered(p, t)
    case Some((artist, track)) => artist + " " + track
    case None => p.name + " music"
  }

  /** The artist and the raw title that are printed as the stored title; the found title is kept if it parses. */
  function PrintedParts(p: Preference, discovered: Option<(string, string)>, found: Found): Option<(string, string)> {
    if discovered.Some? then discovered
    else if TitleParser.Parsed(found.title).artist != "" then None
    else Some((if p.kind == "genre" && found.channel != "" then found.channel else p.name, found.title))
  }

  /** The title an item is stored under. */
  function StoredTitle(p: Preference, discovered: Option<(string, string)>, found: Found): string {
    match PrintedParts(p, discovered, found)
    case None => found.title
    case Some((artist, raw)) => TitleParser.Printed(artist, raw)
  }

  /**
   A stored title has an artist if the search provided it as it is.  Otherwise it
   parses to the artist and the cleaned title it was made of exactly under the
   condition on these two, whether they come from a discovery or from the search.
   */
  lemma StoredTitleParses(p: Preference, discovered: Option<(string, string)>, found: Found)
    ensures var hint := TitleParser.Parsed(StoredTitle(p, discovered, found));
      match PrintedParts(p, discovered, found)
      case None => StoredTitle(p, discovered, found) == found.title && hint.artist != ""
      case Some((artist, raw)) =>
        var a, n := TitleParser.Normal(artist), TitleParser.Normal(raw);
        a != "" ==> (hint.artist == a && hint.title == TitleParser.Clean(n) <==>
          && TitleParser.Clean(n) != "" && TitleParser.Uncut(a)
          && !(TitlePrinting.Dangles(a) && TitlePrinting.CutAtBracket(n)))
  {
    hide TitleParser.Parsed, TitleParser.Normal, TitleParser.Clean, TitleParser.Uncut, TitlePrinting.Dangles,
      TitlePrinting.CutAtBracket, TitleParser.Printed;
    match PrintedParts(p, discovered, found)
    case None =>
    case Some((artist, raw)) =>
      if TitleParser.Normal(artist) != "" {
        TitlePrinting.PrintedParses(artist, raw);
      }
  }

  function QueuedCount(items: seq<Item>): nat {
    if |items| == 0 then 0
    else QueuedCount(items[..|items| - 1]) + if items[|items| - 1].status == Queued then 1 else 0
  }

  lemma {:induction false} QueuedAppend(a: seq<Item>, b: seq<Item>)
    requires forall i :: 0 <= i < |b| ==> b[i].status == Queued
    ensures QueuedCount(a + b) == QueuedCount(a) + |b|
    decreases |b|
  {
    if |b| == 0 {
      assert a + b == a;
    } else {
      assert (a + b)[..|a + b| - 1] == a + b[..|b| - 1];
      QueuedAppend(a, b[..|b| - 1]);
    }
  }

  /** How many turns of the run were successful. */
  function Successes(run: seq<Turn>): nat {
    if |run| == 0 then 0
    else Successes(run[..|run| - 1]) + if run[|run| - 1].successful then 1 else 0
  }

  lemma {:induction false} SuccessesConcat(a: seq<Turn>, b: seq<Turn>)
    ensures Successes(a + b) == Successes(a) + Successes(b)
    decreases |b|
  {
    if |b| == 0 {
      assert a + b == a;
    } else {
      assert (a + b)[..|a + b| - 1] == a + b[..|b| - 1];
      SuccessesConcat(a, b[..|b| - 1]);
    }
  }

  lemma {:induction false} NoSuccesses(run: seq<Turn>)
    requires forall i :: 0 <= i < |run| ==> !run[i].successful
    ensures Successes(run) == 0
    decreases |run|
  {
    if |run| > 0 {
      NoSuccesses(run[..|run| - 1]);
    }
  }

  // ----- one attempt -----

  /** What the mode offers to choose from. */
  predicate Offers(mode: Mode, last: Option<string>, lower: Lowering) {
    match mode
    case SpecificSeeds(artists, genres) => Seeds(artists, lower) != [] || Seeds(genres, lower) != []
    case RelatedLast(known) =>
      last.Some? && TitleParser.Parsed(last.value).artist != "" &&
      var e := known(TitleParser.Parsed(last.value).artist);
      e.Some? && (NotBlank(e.value.genres) != [] || NotBlank(e.value.related) != [])
    case ActiveUsers(users, tastes) => exists u :: u in users && HasTaste(tastes, u)
  }

  predicate Faulty(t: Try) {
    t.addFails || t.markFails || match t.mode
      case SpecificSeeds(_, _) => false
      case RelatedLast(_) => t.outage == 0
      case ActiveUsers(users, _) => t.outage <= |users|
  }

  /** What the mode gives to draw from, and the user it belongs to, if any. */
  ghost predicate Gives(mode: Mode, values: seq<Preference>, user: Option<User>, last: Option<string>, lower: Lowering)
  {
    match mode
    case SpecificSeeds(artists, genres) =>
      && user.None?
      && values == Marked(Seeds(artists, lower), "artist") + Marked(Seeds(genres, lower), "genre")
    case RelatedLast(known) =>
      && user.None? && last.Some? && known(TitleParser.Parsed(last.value).artist).Some?
      && var e := known(TitleParser.Parsed(last.value).artist).value;
        values == Marked(NotBlank(e.genres), "genre") + Marked(NotBlank(e.related), "artist")
    case ActiveUsers(users, tastes) =>
      && user.Some? && user.value in users && HasTaste(tastes, user.value)
      && var taste := TasteOf(tastes, user.value);
        IsTaste(values, ArtistsOf(taste.titles), taste.genres, lower)
  }

  predicate Hits(dice: Dice, values: seq<Preference>, k: nat, p: Preference) {
    k < |values| && values[k] == p && Total(values) > 0 && Draws(values, dice(Total(values)), k)
  }

  /** The preference, of the user if any, whose share the random number hits. */
  ghost predicate Drawn(p: Preference, user: Option<User>, t: Try, terms: Terms) {
    exists values, k :: Gives(t.mode, values, user, terms.last, terms.lower) && Hits(t.dice, values, k, p)
  }

  /** The transaction by which an attempt adds what a search for the drawn preference found. */
  ghost predicate AddedFor(add: Transaction, user: Option<User>, t: Try, terms: Terms) {
    exists p :: Drawn(p, user, t, terms) && AddsFound(add, p, t, terms.limit)
  }

  ghost predicate OwnAdd(add: Transaction, t: Try, terms: Terms) {
    exists user :: AddedFor(add, user, t, terms)
  }

  predicate AddsFound(add: Transaction, p: Preference, t: Try, limit: int) {
    var found := t.search(Query(p, t));
    found.Some? && add == Transaction.Add(t.id, "youtube", found.value.url,
                                          StoredTitle(p, Discovered(p, t), found.value), "Auto-queue", limit)
  }

  /** A user was passed over in the attempt, for lack of anything to go by. */
  predicate PassedInTry(turn: Turn, mode: Mode) {
    !turn.successful && mode.ActiveUsers? && turn.active == mode.users && !HasTaste(mode.tastes, turn.chosen)
  }

  function AddOf(add: Option<Transaction>): seq<Transaction> {
    match add
    case None => []
    case Some(t) => [t]
  }

  predicate Accepted(q: QueueState, t: Try, add: Option<Transaction>) {
    add.Some? && Transact(Run(q, t.edits), add.value).Success?
  }

  /** What the outcome of an attempt says about it. */
  ghost predicate Explained(tried: Tried, t: Try, terms: Terms, q: QueueState, add: Option<Transaction>) {
    match tried
    case Added => Accepted(q, t, add)
    case NotAdded => !Accepted(q, t, add) &&
      ((exists p, user :: Drawn(p, user, t, terms) && t.search(Query(p, t)).None?)
       || (add.Some? && Transact(Run(q, t.edits), add.value) == Failure(Duplicate)))
    case Exhausted => !Accepted(q, t, add) &&
      (!Offers(t.mode, terms.last, terms.lower)
       || (add.Some? && Transact(Run(q, t.edits), add.value) == Failure(Full)))
    case Broken(added) => Faulty(t) && (added <==> Accepted(q, t, add)) && (added ==> t.mode.ActiveUsers?)
  }

  class Engine {
    const store: Store
    const lower: Lowering
    var turns: Turns
    var clock: nat
    ghost var history: seq<Turn>

    /** The stored turns are those of a fair run of turns. */
    ghost predicate Valid()
      reads this
    {
      FairHistory(turns, clock, history)
    }

    /** A new process finds the turns stored by earlier ones. */
    constructor (store: Store, lower: Lowering, turns: Turns, clock: nat, ghost history: seq<Turn>)
      requires FairHistory(turns, clock, history)
      ensures Valid() && this.store == store && this.lower == lower
      ensures this.turns == turns && this.clock == clock && this.history == history
    {
      this.store, this.lower := store, lower;
      this.turns, this.clock, this.history := turns, clock, history;
    }

    /** The users whose last turn is oldest. */
    method Oldest(users: seq<User>) returns (candidates: seq<User>)
      requires |users| > 0
      ensures |candidates| > 0
      ensures forall u :: u in candidates <==> Fair(turns, users, u)
    {
      candidates := [users[0]];
      var oldest := LastTurn(turns, users[0]);
      for i := 1 to |users|
        invariant |candidates| > 0
        invariant forall u :: u in candidates <==> u in users[..i] && LastTurn(turns, u) == oldest
        invariant forall k :: 0 <= k < i ==> oldest <= LastTurn(turns, users[k])
      {
        var at := LastTurn(turns, users[i]);
        if at < oldest {
          oldest := at;
          candidates := [users[i]];
        } else if at == oldest {
          candidates := candidates + [users[i]];
        }
        assert users[..i + 1] == users[..i] + [users[i]];
      }
      assert users[..|users|] == users;
      assert LastTurn(turns, candidates[0]) == oldest && candidates[0] in candidates;
      forall u ensures u in candidates <==> Fair(turns, users, u) {
        if u in candidates {
          forall v | v in users ensures oldest <= LastTurn(turns, v) {
            var k :| 0 <= k < |users| && users[k] == v;
          }
        }
      }
    }

    method FairUser(users: seq<User>) returns (u: User)
      requires |users| > 0
      ensures Fair(turns, users, u)
    {
      var candidates := Oldest(users);
      var k :| 0 <= k < |candidates|;
      u := candidates[k];
    }

    method MarkSelected(users: Users, u: User, ghost successful: bool)
      requires Valid() && Fair(turns, users, u)
      modifies this
      ensures Valid() && history == old(history) + [Turn(users, u, old(clock) + 1, successful)]
      ensures turns == old(turns)[u := old(clock) + 1] && clock == old(clock) + 1
    {
      ghost var t := Turn(users, u, clock + 1, successful);
      FairRunConcat(map[], 0, history, [t]);
      clock := clock + 1;
      turns := turns[u := clock];
      history := history + [t];
    }

    /**
     Passes over users without preferences, giving each of them a turn, until one
     with preferences comes up; that one's turn is marked later, on success.
     */
    method PreferencesForUsers(users: Users, tastes: Tastes, outage: nat) returns (r: Turned)
      requires Valid()
      modifies this
      ensures Valid() && old(history) <= history
      ensures r.Lost? ==> outage <= |users|
      ensures !r.Lost? ==> (r.Chosen? <==> exists u :: u in users && HasTaste(tastes, u))
      ensures r.Nobody? ==> |history| == |old(history)| + |users|
      ensures r.Chosen? ==> r.user in users && Fair(turns, users, r.user) && HasTaste(tastes, r.user)
      ensures r.Chosen? ==> |r.values| > 0 && Positive(r.values)
      ensures r.Chosen? ==>
        IsTaste(r.values, ArtistsOf(TasteOf(tastes, r.user).titles), TasteOf(tastes, r.user).genres, lower)
      ensures r.Chosen? ==> forall v :: v in users && HasTaste(tastes, v) ==>
        LastTurn(old(turns), r.user) <= LastTurn(old(turns), v)
      ensures PassedTurns(history[|old(history)|..], users, tastes)
    {
      hide FairHistory, Fair, PassedOver, Distinct, HasTaste, IsTaste, Positive, Visited, PassedTurns;
      NobodyVisited(users, tastes);
      HistoryBound(turns, clock, history);
      NobodyPassed(turns, clock);
      ghost var first := turns;
      ghost var before := clock;
      ghost var passed: seq<Turn> := [];
      var tried: set<User> := {};
      if outage == 0 {
        assert history[|old(history)|..] == passed;
        return Lost;
      }
      for i := 0 to |users|
        invariant Valid() && history == old(history) + passed && |passed| == i && before <= clock
        invariant Visited(passed, users, tastes, tried) && PassedOver(first, turns, before, tried)
      {
        VisitedSo(passed, users, tastes, tried);
        if i == outage {
          assert history[|old(history)|..] == passed;
          return Lost;
        }
        UntriedUser(users, tried);
        var u := FairUser(users);
        UntriedComesFirst(first, turns, before, users, tried, u);
        var values := UserPreferences(TasteOf(tastes, u).titles, TasteOf(tastes, u).genres, lower);
        HasTasteIs(tastes, u);
        if |values| > 0 {
          assert history[|old(history)|..] == passed;
          return Chosen(u, values);
        }
        PassOver(first, turns, before, tried, u, clock + 1);
        VisitOne(passed, users, tastes, tried, u, clock + 1);
        passed := passed + [Turn(users, u, clock + 1, false)];
        MarkSelected(users, u, false);
        tried := tried + {u};
      }
      VisitedSo(passed, users, tastes, tried);
      AllTried(users, tried);
      assert history[|old(history)|..] == passed;
      return Nobody;
    }

    /** The preferences of this attempt, and the user they belong to, if any. */
    method ChoosePreferences(mode: Mode, last: Option<string>, outage: nat) returns (r: Choice)
      requires Valid()
      modifies this
      ensures Valid() && old(history) <= history
      ensures r.NoAnswer? ==> match mode
        case SpecificSeeds(_, _) => false
        case RelatedLast(_) => outage == 0
        case ActiveUsers(users, _) => outage <= |users|
      ensures r.Values? ==> Positive(r.values) && (|r.values| > 0 <==> Offers(mode, last, lower))
      ensures r.Values? ==> (r.user.Some? <==> mode.ActiveUsers? && |r.values| > 0)
      ensures r.Values? && |r.values| > 0 ==> Gives(mode, r.values, r.user, last, lower)
      ensures r.Values? && r.user.Some? ==> mode.ActiveUsers? && Fair(turns, mode.users, r.user.value)
      ensures forall i :: |old(history)| <= i < |history| ==> PassedInTry(history[i], mode)
    {
      hide FairHistory, Fair, HasTaste, IsTaste, Seeds, NotBlank, TitleParser.Parsed;
      match mode {
        case SpecificSeeds(artists, genres) =>
          var values := SeedPreferences(artists, genres, lower);
          assert |values| == |Seeds(artists, lower)| + |Seeds(genres, lower)|;
          return Values(values, None);
        case RelatedLast(known) =>
          if outage == 0 {
            return NoAnswer;
          }
          var values := RelatedPreferences(last, known);
          return Values(values, None);
        case ActiveUsers(users, tastes) =>
          ghost var n := |history|;
          var u := PreferencesForUsers(users, tastes, outage);
          assert forall i :: n <= i < |history| ==> history[i] == history[n..][i - n];
          match u {
            case Chosen(user, values) => return Values(values, Some(user));
            case Nobody => return Values([], None);
            case Lost => return NoAnswer;
          }
      }
    }

    /** The title to store: the raw one if it parses, otherwise one that names an artist. */
    method CanonicalTitle(p: Preference, discovered: Option<(string, string)>, found: Found) returns (title: string)
      ensures title == StoredTitle(p, discovered, found)
    {
      hide TitleParser.Parsed;
      title := "";
      if discovered.Some? {
        title := discovered.value.0 + " - " + discovered.value.1;
      }
      if title == "" {
        title := found.title;
        var hint := TitleParser.ParseTitle(found.title);
        if hint.artist == "" {
          var artist := p.name;
          if p.kind == "genre" && found.channel != "" {
            artist := found.channel;
          }
          title := artist + " - " + found.title;
        }
      }
    }

    /** What a search for the preference, or for a track of its genre, finds, and the title to store it under. */
    method Look(p: Preference, t: Try) returns (source: Option<(string, string)>)
      ensures source.None? <==> t.search(Query(p, t)).None?
      ensures source.Some? ==> forall limit ::
        AddsFound(Transaction.Add(t.id, "youtube", source.value.0, source.value.1, "Auto-queue", limit), p, t, limit)
    {
      hide StoredTitle;
      var discovered := if p.kind == "genre" then t.discover(p.name) else None;
      var query := if discovered.Some? then discovered.value.0 + " " + discovered.value.1 else p.name + " music";
      var found := t.search(query);
      if found.None? {
        return None;
      }
      var title := CanonicalTitle(p, discovered, found.value);
      source := Some((found.value.url, title));
    }

    /** One attempt: preferences, a draw, the search result, and a turn for the user if it was added. */
    method TryOnce(t: Try, last: Option<string>, limit: int)
      returns (tried: Tried, ghost add: Option<Transaction>, ghost user: Option<User>)
      requires Valid() && store.Valid() && NewIds(store.issued, Planned(t))
      modifies this, store
      ensures Valid() && store.Valid() && old(history) <= history
      ensures store.View() == Run(old(store.View()), t.edits + AddOf(add))
      ensures add.Some? ==> AddedFor(add.value, user, t, Terms(limit, last, lower))
      ensures Explained(tried, t, Terms(limit, last, lower), old(store.View()), add)
      ensures Marks(t, tried, user, history[|old(history)|..])
    {
      hide Tables, FairHistory, Fair, Transact, Positive, Total, Offers, PassedInTry, StoredTitle, Run, NewIds,
        Successes, Explained, Drawn, Gives, Draws, AddedFor, AddsFound, Faulty, Query, Marks;
      ghost var q, n, terms := store.View(), |history|, Terms(limit, last, lower);
      NewAfterRun(q, t.edits, OwnId(t));
      store.PerformAll(t.edits);
      add, user := None, None;
      assert t.edits + AddOf(add) == t.edits;
      var choice := ChoosePreferences(t.mode, last, t.outage);
      ghost var passed := history[n..];
      assert history == old(history) + passed;
      assert forall i :: 0 <= i < |passed| ==> passed[i] == history[n + i];
      PassedOnly(t, passed);
      if choice.NoAnswer? {
        PreferencesBreak(t, terms, q);
        return Broken(false), add, user;
      }
      if |choice.values| == 0 {
        NothingOffered(t, terms, q);
        return Exhausted, add, user;
      }
      PositiveTotal(choice.values);
      var k := Pick(choice.values, t.dice(Total(choice.values)));
      var p := choice.values[k];
      user := choice.user;
      IsDrawn(p, choice.values, k, user, t, terms);
      var source := Look(p, t);
      if source.None? {
        NothingFound(p, user, t, terms, q);
        return NotAdded, add, user;
      }
      var (url, title) := source.value;
      ghost var own := Transaction.Add(t.id, "youtube", url, title, "Auto-queue", limit);
      IsAddedFor(own, p, user, t, terms);
      OwnIdIsNew(store.View(), t);
      var r := store.Add(t.id, "youtube", url, title, "Auto-queue", limit, t.addFails);
      if t.addFails {
        Breaks(t, terms, q);
        return Broken(false), add, user;
      }
      add := Some(own);
      RunOneMore(q, t.edits, own);
      if r.Failure? {
        AddRefused(t, terms, q, own);
        return if r.error == Full then Exhausted else NotAdded, add, user;
      }
      AddAccepted(t, terms, q, own);
      if choice.user.Some? {
        if t.markFails {
          return Broken(true), add, user;
        }
        ghost var turn := Turn(t.mode.users, choice.user.value, clock + 1, true);
        MarkSelected(t.mode.users, choice.user.value, true);
        assert history[n..] == passed + [turn];
        OneSuccess(t, user.value, passed, turn);
      }
      return Added, add, user;
    }

    /**
     Tops the queue up to `depth` queued items as counted at the start, in at most
     six attempts an item, while others go on editing the queue.
     */
    method Refill(depth: int, limit: int, tries: seq<Try>)
      returns (added: nat, end: Tried, ghost adds: seq<Option<Transaction>>)
      requires Valid() && store.Valid() && |tries| >= 6 * depth
      requires NewIds(store.issued, Plan(tries))
      modifies this, store
      ensures Valid() && store.Valid() && old(history) <= history && |adds| <= |tries|
      ensures |adds| <= var missing := depth - QueuedCount(old(store.contents)); if missing > 0 then 6 * missing else 0
      ensures store.View() == Run(old(store.View()), Trace(tries[..|adds|], adds))
      ensures Explains(tries, adds, Terms(limit, LastTitle(old(store.contents)), lower))
      ensures added == Gained(old(store.View()), tries[..|adds|], adds, false)
      ensures added == 0 || QueuedCount(old(store.contents)) + added <= depth
      ensures Rewarded(history[|old(history)|..], Gained(old(store.View()), tries[..|adds|], adds, true), end)
      ensures Ends(end, tries, adds, Terms(limit, LastTitle(old(store.contents)), lower), old(store.View()),
                   depth - QueuedCount(old(store.contents)), added)
    {
      hide Tables, FairHistory, Explained, Progress, Planned, NewIds, Run, QueuedCount, Transact, Successes, Ends,
        Explains, Plan, Trace, Gained, OwnAdd, AddedFor, StoredTitle, Marks, Rewarded;
      ghost var q := store.View();
      ghost var taken: seq<Turn> := [];
      var items := store.ReadItems();
      var queued := CountQueued(items);
      var last := if |items| > 0 then Some(items[|items| - 1].title) else None;
      var needed := depth - queued;
      added, adds, end := 0, [], NotAdded;
      ghost var terms := Terms(limit, last, lower);
      NoProgress(q, tries, terms);
      var attempts := 0;
      while added < needed && attempts < needed * 6
        invariant Valid() && store.Valid() && history == old(history) + taken
        invariant |adds| == attempts <= |tries| && (attempts == 0 || attempts <= needed * 6)
        invariant Progress(q, store.View(), tries, adds, added, taken, 0, terms)
        invariant end == NotAdded && (added == 0 || added <= needed)
        decreases needed * 6 - attempts
      {
        ghost var now, n := store.View(), |history|;
        var t := tries[attempts];
        NextIds(q, now, tries, adds, added, taken, terms);
        var tried;
        ghost var add, user;
        tried, add, user := TryOnce(t, last, limit);
        IsOwn(add, user, t, terms);
        TurnsGoOn(old(history), taken, history, n);
        ProgressStep(q, now, store.View(), tries, adds, added, taken, terms, tried, add, user, history[n..]);
        taken := taken + history[n..];
        attempts := attempts + 1;
        EndsBy(tries, adds, add, terms, q, now, needed, tried);
        adds := adds + [add];
        if tried == Added || tried == Broken(true) {
          added := added + 1;
        }
        if tried.Exhausted? || tried.Broken? {
          end := tried;
          break;
        }
      }
      if end == NotAdded {
        EndsEnough(tries, adds, terms, q, needed, added);
      }
      TakenIs(old(history), taken);
      Progressed(q, store.View(), tries, adds, added, taken, if end == Broken(true) then 1 else 0, terms);
      IsRewarded(taken, Gained(q, tries[..|adds|], adds, true), end);
    }

    static method CountQueued(items: seq<Item>) returns (n: nat)
      ensures n == QueuedCount(items)
    {
      n := 0;
      for i := 0 to |items|
        invariant n == QueuedCount(items[..i])
      {
        assert items[..i + 1][..i] == items[..i];
        if items[i].status == Queued {
          n := n + 1;
        }
      }
      assert items[..|items|] == items;
    }
  }

  /** The turns are those of a fair run, and the clock that of its last turn. */
  ghost predicate FairHistory(turns: Turns, clock: nat, history: seq<Turn>) {
    && NoLaterThan(turns, clock)
    && FairRun(map[], 0, history)
    && turns == AfterTurns(map[], history)
    && clock == Clock(0, history)
  }

  lemma HistoryBound(turns: Turns, clock: nat, history: seq<Turn>)
    requires FairHistory(turns, clock, history)
    ensures NoLaterThan(turns, clock)
  {
  }

  lemma HasTasteIs(tastes: Tastes, u: User)
    ensures HasTaste(tastes, u) <==> ArtistsOf(TasteOf(tastes, u).titles) != []
  {
  }

  /** The turns of an attempt: of users passed over, and then, for an item added, of the user it was added for. */
  predicate Marks(t: Try, tried: Tried, user: Option<User>, taken: seq<Turn>) {
    && Successes(taken) == (if tried.Added? && t.mode.ActiveUsers? then 1 else 0)
    && (forall i :: 0 <= i < |taken| && !taken[i].successful ==> PassedInTry(taken[i], t.mode))
    && (tried.Added? && t.mode.ActiveUsers? ==>
          && user.Some? && |taken| > 0
          && var last := taken[|taken| - 1];
            last.successful && last.active == t.mode.users && last.chosen == user.value)
  }

  lemma PassedOnly(t: Try, passed: seq<Turn>)
    requires forall i :: 0 <= i < |passed| ==> PassedInTry(passed[i], t.mode)
    ensures forall tried: Tried, user :: !(tried.Added? && t.mode.ActiveUsers?) ==> Marks(t, tried, user, passed)
  {
    NoSuccesses(passed);
  }

  lemma OneSuccess(t: Try, user: User, passed: seq<Turn>, turn: Turn)
    requires forall i :: 0 <= i < |passed| ==> PassedInTry(passed[i], t.mode)
    requires t.mode.ActiveUsers? && turn.successful && turn.active == t.mode.users && turn.chosen == user
    ensures Marks(t, Added, Some(user), passed + [turn])
  {
    NoSuccesses(passed);
    assert (passed + [turn])[..|passed|] == passed;
  }

  // ----- the outcome of an attempt -----

  lemma NothingOffered(t: Try, terms: Terms, q: QueueState)
    requires !Offers(t.mode, terms.last, terms.lower)
    ensures Explained(Exhausted, t, terms, q, None)
  {
  }

  lemma NothingFound(p: Preference, user: Option<User>, t: Try, terms: Terms, q: QueueState)
    requires Drawn(p, user, t, terms) && t.search(Query(p, t)).None?
    ensures Explained(NotAdded, t, terms, q, None)
  {
  }

  lemma Breaks(t: Try, terms: Terms, q: QueueState)
    requires t.addFails
    ensures Explained(Broken(false), t, terms, q, None)
  {
  }

  lemma PreferencesBreak(t: Try, terms: Terms, q: QueueState)
    requires match t.mode
      case SpecificSeeds(_, _) => false
      case RelatedLast(_) => t.outage == 0
      case ActiveUsers(users, _) => t.outage <= |users|
    ensures Explained(Broken(false), t, terms, q, None)
  {
  }

  lemma AddRefused(t: Try, terms: Terms, q: QueueState, add: Transaction)
    requires add.Add? && Transact(Run(q, t.edits), add).Failure?
    ensures var full := Transact(Run(q, t.edits), add) == Failure(Full);
      Explained(if full then Exhausted else NotAdded, t, terms, q, Some(add))
  {
    AddFailsHow(Run(q, t.edits), add);
  }

  lemma AddAccepted(t: Try, terms: Terms, q: QueueState, add: Transaction)
    requires Transact(Run(q, t.edits), add).Success?
    ensures Explained(Added, t, terms, q, Some(add))
    ensures t.markFails && t.mode.ActiveUsers? ==> Explained(Broken(true), t, terms, q, Some(add))
  {
  }

  lemma IsAddedFor(add: Transaction, p: Preference, user: Option<User>, t: Try, terms: Terms)
    requires Drawn(p, user, t, terms) && AddsFound(add, p, t, terms.limit)
    ensures AddedFor(add, user, t, terms)
  {
  }

  lemma IsOwn(add: Option<Transaction>, user: Option<User>, t: Try, terms: Terms)
    requires add.Some? ==> AddedFor(add.value, user, t, terms)
    ensures add.Some? ==> OwnAdd(add.value, t, terms)
  {
  }

  lemma OwnAddIs(add: Transaction, t: Try, terms: Terms)
    requires OwnAdd(add, t, terms)
    ensures add.Add? && add.id == t.id && add.kind == "youtube" && add.submitter == "Auto-queue"
    ensures |ItemsOf(add)| == 1 && add == Submission(ItemsOf(add)[0], terms.limit)
  {
  }

  lemma IsDrawn(p: Preference, values: seq<Preference>, k: nat, user: Option<User>, t: Try, terms: Terms)
    ensures Gives(t.mode, values, user, terms.last, terms.lower) && Hits(t.dice, values, k, p) ==>
      Drawn(p, user, t, terms)
  {
  }

  // ----- ids -----

  /** A stand-in for the addition of what was found, for its id. */
  function OwnId(t: Try): seq<Transaction> {
    [Transaction.Add(t.id, "youtube", "", "", "Auto-queue", 0)]
  }

  function Planned(t: Try): seq<Transaction> { t.edits + OwnId(t) }

  function Plan(tries: seq<Try>): seq<Transaction> {
    if |tries| == 0 then [] else Planned(tries[0]) + Plan(tries[1..])
  }

  lemma OwnIdIsNew(q: QueueState, t: Try)
    requires NewIds(q.issued, OwnId(t))
    ensures t.id !in q.issued
  {
    assert OwnId(t)[0].Add?;
  }

  lemma PlanSplits(q: QueueState, rest: seq<Try>)
    requires |rest| > 0 && NewIds(q.issued, Plan(rest))
    ensures NewIds(q.issued, Planned(rest[0])) && NewIds(q.issued, Planned(rest[0]) + Plan(rest[1..]))
  {
    NewAfterRun(q, Planned(rest[0]), Plan(rest[1..]));
  }

  lemma IdsStayNew(q: QueueState, t: Try, add: Option<Transaction>, rest: seq<Transaction>)
    requires NewIds(q.issued, Planned(t) + rest) && (add.Some? ==> add.value.Add? && add.value.id == t.id)
    ensures NewIds(Run(q, t.edits + AddOf(add)).issued, rest)
  {
    var planned, done := Planned(t) + rest, t.edits + AddOf(add) + rest;
    var n := |t.edits|;
    var shift := |planned| - |done|;
    assert shift == 0 || shift == 1;
    forall i | 0 <= i < |done| && done[i].Add?
      ensures var j := if i < n then i else i + shift;
        0 <= j < |planned| && planned[j].Add? && planned[j].id == done[i].id
    {
      var j := if i < n then i else i + shift;
      if i < n {
        assert planned[i] == t.edits[i];
      } else if i < n + |AddOf(add)| {
        assert done[i] == add.value && planned[i] == OwnId(t)[0];
      } else {
        assert done[i] == rest[i - n - |AddOf(add)|] == planned[j];
      }
    }
    SameIdsNew(q.issued, planned, done, n, shift);
    hide NewIds;
    NewAfterRun(q, t.edits + AddOf(add), rest);
  }

  lemma SameIdsNew(issued: set<Id>, planned: seq<Transaction>, done: seq<Transaction>, n: nat, shift: nat)
    requires NewIds(issued, planned)
    requires forall i :: 0 <= i < |done| && done[i].Add? ==> var j := if i < n then i else i + shift;
      0 <= j < |planned| && planned[j].Add? && planned[j].id == done[i].id
    ensures NewIds(issued, done)
  {
  }

  // ----- what a refill does to the queue -----

  lemma RunOneMore(q: QueueState, ts: seq<Transaction>, t: Transaction)
    ensures Run(q, ts + [t]) == Apply(Run(q, ts), t)
  {
    hide Apply;
    RunConcat(q, ts, [t]);
    assert Run(Run(q, ts), [t]) == Apply(Run(q, ts), t);
  }

  lemma AddFailsHow(q: QueueState, t: Transaction)
    requires t.Add? && Transact(q, t).Failure?
    ensures Transact(q, t).error == Full || Transact(q, t).error == Duplicate
  {
  }

  /** All transactions of a refill and of others during it, in order. */
  function Trace(tries: seq<Try>, adds: seq<Option<Transaction>>): seq<Transaction>
    requires |tries| == |adds|
  {
    if |tries| == 0 then []
    else
      var n := |tries| - 1;
      Trace(tries[..n], adds[..n]) + (tries[n].edits + AddOf(adds[n]))
  }

  /** How many additions were accepted; with `users`, only those made for a user. */
  function Gained(q: QueueState, tries: seq<Try>, adds: seq<Option<Transaction>>, users: bool): nat
    requires |tries| == |adds|
  {
    if |tries| == 0 then 0
    else
      var n := |tries| - 1;
      var before := Trace(tries[..n], adds[..n]);
      Gained(q, tries[..n], adds[..n], users)
      + if Accepted(Run(q, before), tries[n], adds[n]) && (users ==> tries[n].mode.ActiveUsers?) then 1 else 0
  }

  /** Every addition is of what its attempt found, under a canonical title. */
  ghost predicate Explains(tries: seq<Try>, adds: seq<Option<Transaction>>, terms: Terms) {
    |adds| <= |tries| && forall i :: 0 <= i < |adds| && adds[i].Some? ==> OwnAdd(adds[i].value, tries[i], terms)
  }

  /** One successful turn an item added for a user, but for one whose marking failed. */
  predicate Rewarded(run: seq<Turn>, gained: nat, end: Tried) {
    Successes(run) + (if end == Broken(true) then 1 else 0) == gained
  }

  function LastTitle(items: seq<Item>): Option<string> {
    if |items| > 0 then Some(items[|items| - 1].title) else None
  }

  /** Why a refill ended: enough was added, the attempts are used up, or as its last attempt explains. */
  ghost predicate Ends(end: Tried, tries: seq<Try>, adds: seq<Option<Transaction>>, terms: Terms, q: QueueState,
                       needed: int, added: nat)
    requires |adds| <= |tries|
  {
    match end
    case Added => false
    case NotAdded => added >= needed || |adds| == 6 * needed
    case _ =>
      |adds| > 0 &&
      var n := |adds| - 1;
      Explained(end, tries[n], terms, Run(q, Trace(tries[..n], adds[..n])), adds[n])
  }

  /** A refill after the attempts so far, with `owed` items added for users whose turn could not be marked. */
  ghost predicate Progress(q: QueueState, now: QueueState, tries: seq<Try>, adds: seq<Option<Transaction>>, added: nat,
                           taken: seq<Turn>, owed: nat, terms: Terms)
  {
    && |adds| <= |tries| && now == Run(q, Trace(tries[..|adds|], adds))
    && NewIds(now.issued, Plan(tries[|adds|..])) && Explains(tries, adds, terms)
    && added == Gained(q, tries[..|adds|], adds, false)
    && Successes(taken) + owed == Gained(q, tries[..|adds|], adds, true)
  }

  lemma NoProgress(q: QueueState, tries: seq<Try>, terms: Terms)
    requires NewIds(q.issued, Plan(tries))
    ensures Progress(q, q, tries, [], 0, [], 0, terms)
  {
    assert tries[0..] == tries;
  }

  lemma Progressed(q: QueueState, now: QueueState, tries: seq<Try>, adds: seq<Option<Transaction>>, added: nat,
                   taken: seq<Turn>, owed: nat, terms: Terms)
    requires Progress(q, now, tries, adds, added, taken, owed, terms)
    ensures |adds| <= |tries| && now == Run(q, Trace(tries[..|adds|], adds)) && Explains(tries, adds, terms)
    ensures added == Gained(q, tries[..|adds|], adds, false)
    ensures Successes(taken) + owed == Gained(q, tries[..|adds|], adds, true)
  {
  }

  lemma NextIds(q: QueueState, now: QueueState, tries: seq<Try>, adds: seq<Option<Transaction>>, added: nat,
                taken: seq<Turn>, terms: Terms)
    requires Progress(q, now, tries, adds, added, taken, 0, terms) && |adds| < |tries|
    ensures NewIds(now.issued, Planned(tries[|adds|]))
    ensures NewIds(now.issued, Planned(tries[|adds|]) + Plan(tries[|adds| + 1..]))
  {
    var rest := tries[|adds|..];
    PlanSplits(now, rest);
    assert rest[0] == tries[|adds|] && rest[1..] == tries[|adds| + 1..];
  }

  lemma ProgressStep(q: QueueState, now: QueueState, after: QueueState, tries: seq<Try>, adds: seq<Option<Transaction>>,
                     added: nat, taken: seq<Turn>, terms: Terms, tried: Tried, add: Option<Transaction>,
                     user: Option<User>, turns: seq<Turn>)
    requires Progress(q, now, tries, adds, added, taken, 0, terms) && |adds| < |tries|
    requires var t := tries[|adds|];
      && after == Run(now, t.edits + AddOf(add)) && (add.Some? ==> OwnAdd(add.value, t, terms))
      && Explained(tried, t, terms, now, add)
      && Marks(t, tried, user, turns)
    ensures Progress(q, after, tries, adds + [add], added + (if tried == Added || tried == Broken(true) then 1 else 0),
                     taken + turns, if tried == Broken(true) then 1 else 0, terms)
    ensures now == Run(q, Trace(tries[..|adds|], adds))
  {
    hide Explained, NewIds, Run, Trace, Gained, OwnAdd, Accepted, Planned, Plan, Successes, Explains, Marks;
    var t := tries[|adds|];
    NextIds(q, now, tries, adds, added, taken, terms);
    if add.Some? {
      OwnAddIs(add.value, t, terms);
    }
    IdsStayNew(now, t, add, Plan(tries[|adds| + 1..]));
    ExplainsMore(tries, adds, add, terms);
    ExplainedAdds(tried, t, terms, now, add);
    MarksCount(t, tried, user, turns);
    SuccessesConcat(taken, turns);
    OneMoreTry(q, tries, adds, add, true);
    OneMoreTry(q, tries, adds, add, false);
  }

  lemma TurnsGoOn(before: seq<Turn>, taken: seq<Turn>, now: seq<Turn>, n: nat)
    requires n == |before + taken| && before + taken <= now
    ensures now == before + (taken + now[n..])
  {
  }

  lemma TakenIs(before: seq<Turn>, taken: seq<Turn>)
    ensures (before + taken)[|before|..] == taken
  {
  }

  lemma IsRewarded(run: seq<Turn>, gained: nat, end: Tried)
    requires Successes(run) + (if end == Broken(true) then 1 else 0) == gained
    ensures Rewarded(run, gained, end)
  {
  }

  lemma MarksCount(t: Try, tried: Tried, user: Option<User>, turns: seq<Turn>)
    requires Marks(t, tried, user, turns)
    ensures Successes(turns) == if tried.Added? && t.mode.ActiveUsers? then 1 else 0
  {
  }

  lemma OneMoreTry(q: QueueState, tries: seq<Try>, adds: seq<Option<Transaction>>, add: Option<Transaction>,
                   users: bool)
    requires |adds| < |tries|
    ensures var n := |adds|;
      var now := Run(q, Trace(tries[..n], adds));
      && Run(q, Trace(tries[..n + 1], adds + [add])) == Run(now, tries[n].edits + AddOf(add))
      && Gained(q, tries[..n + 1], adds + [add], users) == Gained(q, tries[..n], adds, users)
           + if Accepted(now, tries[n], add) && (users ==> tries[n].mode.ActiveUsers?) then 1 else 0
  {
    var n := |adds|;
    assert tries[..n + 1][..n] == tries[..n] && (adds + [add])[..n] == adds;
    hide Accepted, Run;
    RunConcat(q, Trace(tries[..n], adds), tries[n].edits + AddOf(add));
  }

  lemma ExplainsMore(tries: seq<Try>, adds: seq<Option<Transaction>>, add: Option<Transaction>, terms: Terms)
    requires Explains(tries, adds, terms) && |adds| < |tries| && (add.Some? ==> OwnAdd(add.value, tries[|adds|], terms))
    ensures Explains(tries, adds + [add], terms)
  {
    hide OwnAdd;
  }

  lemma EndsBy(tries: seq<Try>, adds: seq<Option<Transaction>>, add: Option<Transaction>, terms: Terms,
               q: QueueState, now: QueueState, needed: int, end: Tried)
    requires |adds| < |tries|
    requires now == Run(q, Trace(tries[..|adds|], adds)) && Explained(end, tries[|adds|], terms, now, add)
    ensures !end.Added? && !end.NotAdded? ==>
      forall added :: Ends(end, tries, adds + [add], terms, q, needed, added)
  {
    assert (adds + [add])[..|adds|] == adds;
  }

  lemma EndsEnough(tries: seq<Try>, adds: seq<Option<Transaction>>, terms: Terms, q: QueueState, needed: int,
                   added: nat)
    requires |adds| <= |tries| && (added >= needed || |adds| == 6 * needed)
    ensures Ends(NotAdded, tries, adds, terms, q, needed, added)
  {
  }

  lemma ExplainedAdds(tried: Tried, t: Try, terms: Terms, q: QueueState,
                      add: Option<Transaction>)
    requires Explained(tried, t, terms, q, add)
    ensures Accepted(q, t, add) <==> tried == Added || tried == Broken(true)
    ensures tried == Broken(true) ==> t.mode.ActiveUsers?
  {
    hide Accepted, Offers, Faulty;
  }

  // ----- a refill that nobody disturbs -----

  /** Nothing but these new items at the end. */
  ghost predicate Refilled(before: QueueState, after: QueueState, gained: seq<Item>) {
    && after.items == before.items + gained
    && (forall i :: 0 <= i < |gained| ==> gained[i].status == Queued && gained[i].error == "")
    && after.revision == before.revision + |gained|
    && after.playback == before.playback
    && QueuedCount(after.items) == QueuedCount(before.items) + |gained|
  }

  function Submission(x: Item, limit: int): Transaction {
    Transaction.Add(x.id, x.kind, x.url, x.title, x.submitter, limit)
  }

  /** The items that were added, each as its attempt found it. */
  function GainedItems(q: QueueState, tries: seq<Try>, adds: seq<Option<Transaction>>): seq<Item>
    requires |tries| == |adds|
  {
    if |tries| == 0 then []
    else
      var n := |tries| - 1;
      var now := Run(q, Trace(tries[..n], adds[..n]));
      GainedItems(q, tries[..n], adds[..n]) + if Accepted(now, tries[n], adds[n]) then ItemsOf(adds[n].value) else []
  }

  function ItemsOf(t: Transaction): seq<Item> {
    if t.Add? then [Item(t.id, t.kind, t.url, t.title, t.submitter, Queued, "")] else []
  }

  /** Every item comes from an attempt of its own, later items from later ones. */
  ghost predicate AllFound(items: seq<Item>, tries: seq<Try>, terms: Terms) {
    exists at: seq<nat> :: |at| == |items| && FoundAt(items, tries, terms, at)
  }

  ghost predicate FoundAt(items: seq<Item>, tries: seq<Try>, terms: Terms, at: seq<nat>)
    requires |at| == |items|
  {
    && (forall i, j :: 0 <= i < j < |at| ==> at[i] < at[j])
    && (forall i :: 0 <= i < |items| ==>
          at[i] < |tries| && OwnAdd(Submission(items[i], terms.limit), tries[at[i]], terms))
  }

  lemma RefilledMore(before: QueueState, now: QueueState, after: QueueState, a: seq<Item>, b: seq<Item>)
    requires Refilled(before, now, a) && Refilled(now, after, b)
    ensures Refilled(before, after, a + b)
  {
    assert before.items + a + b == before.items + (a + b);
  }

  lemma NothingRefills(q: QueueState)
    ensures Refilled(q, q, [])
  {
    assert q.items + [] == q.items;
  }

  lemma AddRefills(q: QueueState, a: Transaction)
    requires a.Add?
    ensures Refilled(q, Apply(q, a), if Transact(q, a).Success? then ItemsOf(a) else [])
  {
    QueuedAppend(q.items, ItemsOf(a));
    QueueEffects.AddAppends(q, a);
    if Transact(q, a).Success? {
      assert Apply(q, a).items == Apply(q, a).items[..|q.items|] + [Apply(q, a).items[|q.items|]];
    } else {
      NothingRefills(q);
    }
  }

  lemma OwnAddRefills(q: QueueState, t: Try, add: Option<Transaction>, terms: Terms)
    requires t.edits == [] && (add.Some? ==> OwnAdd(add.value, t, terms))
    ensures Refilled(q, Run(q, t.edits + AddOf(add)), if Accepted(q, t, add) then ItemsOf(add.value) else [])
  {
    if add.Some? {
      OwnAddIs(add.value, t, terms);
    }
    hide Refilled, Transact, OwnAdd;
    assert Run(q, []) == q;
    if add.Some? {
      assert t.edits + AddOf(add) == [add.value];
      assert Run(q, [add.value]) == Apply(q, add.value);
      AddRefills(q, add.value);
    } else {
      assert t.edits + AddOf(add) == [];
      NothingRefills(q);
    }
  }

  lemma NoTriesRefill(q: QueueState, terms: Terms)
    ensures Refilled(q, Run(q, Trace([], [])), GainedItems(q, [], []))
    ensures |GainedItems(q, [], [])| == Gained(q, [], [], false) && AllFound(GainedItems(q, [], []), [], terms)
  {
    NothingRefills(q);
    assert FoundAt([], [], terms, []);
  }

  /** One more item from the latest attempt. */
  lemma FoundMore(items: seq<Item>, tries: seq<Try>, t: Try, add: Option<Transaction>, terms: Terms, more: bool)
    requires AllFound(items, tries, terms) && (more ==> add.Some? && OwnAdd(add.value, t, terms))
    ensures AllFound(items + if more then ItemsOf(add.value) else [], tries + [t], terms)
    ensures more ==> |ItemsOf(add.value)| == 1
  {
    hide OwnAdd, ItemsOf, Submission;
    var at: seq<nat> :| |at| == |items| && FoundAt(items, tries, terms, at);
    if more {
      OwnAddIs(add.value, t, terms);
      assert FoundAt(items + ItemsOf(add.value), tries + [t], terms, at + [|tries|]);
    } else {
      assert items + [] == items && FoundAt(items, tries + [t], terms, at);
    }
  }

  lemma ExplainsFront(tries: seq<Try>, adds: seq<Option<Transaction>>, n: nat, terms: Terms)
    requires Explains(tries, adds, terms) && n < |adds| == |tries|
    ensures Explains(tries[..n], adds[..n], terms)
    ensures adds[n].Some? ==> OwnAdd(adds[n].value, tries[n], terms)
  {
    hide OwnAdd;
  }

  /** If nobody else edits the queue, a refill appends the items its attempts found and changes nothing else. */
  lemma {:induction false} RefillAppends(q: QueueState, tries: seq<Try>, adds: seq<Option<Transaction>>, terms: Terms)
    requires |tries| == |adds| && Explains(tries, adds, terms)
    requires forall i :: 0 <= i < |tries| ==> tries[i].edits == []
    ensures Refilled(q, Run(q, Trace(tries, adds)), GainedItems(q, tries, adds))
    ensures |GainedItems(q, tries, adds)| == Gained(q, tries, adds, false)
    ensures AllFound(GainedItems(q, tries, adds), tries, terms)
    decreases |tries|
  {
    hide OwnAdd, Accepted, Refilled, Run, Trace, Gained, GainedItems, Explains, AllFound, ItemsOf;
    if |tries| == 0 {
      assert tries == [] && adds == [];
      NoTriesRefill(q, terms);
    } else {
      var n := |tries| - 1;
      var now := Run(q, Trace(tries[..n], adds[..n]));
      ExplainsFront(tries, adds, n, terms);
      RefillAppends(q, tries[..n], adds[..n], terms);
      OwnAddRefills(now, tries[n], adds[n], terms);
      OneMoreTry(q, tries, adds[..n], adds[n], false);
      OneMoreItem(q, tries, adds);
      assert tries[..n + 1] == tries && adds[..n] + [adds[n]] == adds && tries[..n] + [tries[n]] == tries;
      var gained, more := GainedItems(q, tries[..n], adds[..n]), Accepted(now, tries[n], adds[n]);
      AcceptedAdds(now, tries[n], adds[n]);
      FoundMore(gained, tries[..n], tries[n], adds[n], terms, more);
      RefilledMore(q, now, Run(now, tries[n].edits + AddOf(adds[n])), gained,
                   if more then ItemsOf(adds[n].value) else []);
    }
  }

  lemma AcceptedAdds(q: QueueState, t: Try, add: Option<Transaction>)
    ensures Accepted(q, t, add) ==> add.Some?
  {
  }

  lemma OneMoreItem(q: QueueState, tries: seq<Try>, adds: seq<Option<Transaction>>)
    requires |tries| == |adds| > 0
    ensures var n := |tries| - 1;
      var now := Run(q, Trace(tries[..n], adds[..n]));
      GainedItems(q, tries, adds) == GainedItems(q, tries[..n], adds[..n])
                                     + if Accepted(now, tries[n], adds[n]) then ItemsOf(adds[n].value) else []
  {
    hide Accepted, Run, Trace, ItemsOf;
  }

  // ----- passing over -----

  /** The users in `tried` had their turn since `before`; nobody else did. */
  ghost predicate PassedOver(first: Turns, turns: Turns, before: nat, tried: set<User>) {
    && (forall u :: u in tried ==> LastTurn(turns, u) > before)
    && (forall u :: u !in tried ==> LastTurn(turns, u) == LastTurn(first, u))
    && NoLaterThan(first, before)
  }

  lemma NobodyPassed(turns: Turns, clock: nat)
    requires NoLaterThan(turns, clock)
    ensures PassedOver(turns, turns, clock, {})
  {
  }

  lemma PassOver(first: Turns, turns: Turns, before: nat, tried: set<User>, u: User, at: nat)
    requires PassedOver(first, turns, before, tried) && before < at
    ensures PassedOver(first, turns[u := at], before, tried + {u})
  {
  }

  /** A fair choice falls on somebody not tried yet, whose wait was longest among those. */
  lemma UntriedComesFirst(first: Turns, turns: Turns, before: nat, users: seq<User>, tried: set<User>, u: User)
    requires PassedOver(first, turns, before, tried) && Fair(turns, users, u)
    requires exists v :: v in users && v !in tried
    ensures u !in tried && u in users
    ensures forall v :: v in users && v !in tried ==> LastTurn(first, u) <= LastTurn(first, v)
  {
    var v :| v in users && v !in tried;
    assert LastTurn(turns, u) <= LastTurn(turns, v) == LastTurn(first, v) <= before;
  }

  /** Turns given to users that were passed over for lack of preferences, each at most once. */
  predicate PassedTurns(passed: seq<Turn>, users: seq<User>, tastes: Tastes) {
    && |passed| <= |users|
    && (forall i :: 0 <= i < |passed| ==>
          !passed[i].successful && passed[i].active == users && passed[i].chosen in users
          && !HasTaste(tastes, passed[i].chosen))
    && (forall i, j :: 0 <= i < j < |passed| ==> passed[i].chosen != passed[j].chosen)
  }

  /** The users in `tried` are those that got the turns. */
  ghost predicate Visited(passed: seq<Turn>, users: seq<User>, tastes: Tastes, tried: set<User>) {
    && PassedTurns(passed, users, tastes) && |tried| == |passed|
    && (forall i :: 0 <= i < |passed| ==> passed[i].chosen in tried)
    && (forall u :: u in tried ==> u in users && !HasTaste(tastes, u))
  }

  lemma NobodyVisited(users: seq<User>, tastes: Tastes)
    ensures Visited([], users, tastes, {}) && PassedTurns([], users, tastes)
  {
  }

  lemma VisitedSo(passed: seq<Turn>, users: seq<User>, tastes: Tastes, tried: set<User>)
    requires Visited(passed, users, tastes, tried)
    ensures PassedTurns(passed, users, tastes) && |tried| == |passed| && tried <= set u | u in users
    ensures forall u :: u in tried ==> !HasTaste(tastes, u)
  {
  }

  lemma VisitOne(passed: seq<Turn>, users: seq<User>, tastes: Tastes, tried: set<User>, u: User, at: nat)
    requires Visited(passed, users, tastes, tried) && |passed| < |users|
    requires u in users && u !in tried && !HasTaste(tastes, u)
    ensures Visited(passed + [Turn(users, u, at, false)], users, tastes, tried + {u})
  {
    hide HasTaste;
  }

  lemma UserCount(users: seq<User>)
    requires Distinct(users)
    ensures |set u | u in users| == |users|
  {
    DistinctCount(users);
  }

  lemma UntriedUser(users: seq<User>, tried: set<User>)
    requires Distinct(users) && |tried| < |users|
    ensures exists u :: u in users && u !in tried
  {
    UserCount(users);
    var all := set u | u in users;
    if all <= tried {
      SubsetCount(all, tried);
    } else {
      var u :| u in all && u !in tried;
    }
  }

  lemma AllTried(users: seq<User>, tried: set<User>)
    requires Distinct(users) && |tried| == |users| && tried <= set u | u in users
    ensures forall u :: u in users ==> u in tried
  {
    UserCount(users);
    var all := set u | u in users;
    forall u | u in users ensures u in tried {
      if u !in tried {
        SubsetCount(tried + {u}, all);
      }
    }
  }
}
