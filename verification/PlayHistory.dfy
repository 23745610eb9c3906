/**
 The history that the controller's notes leave behind: a play that stays loaded
 from its start to its end, or to its last failure, tiles the time in between.
 */
module PlayHistory {
  import opened Wrappers
  import opened Positions
  import opened QueueModel
  import opened ControllerModel
  import opened History

  /** A step at some time, and the id that a segment it opens would get. */
  datatype Moment = Moment(step: Step, at: int, segment: Id)

  /** What a step records in the history, if anything: a step notes at most one such thing. */
  function RecordOf(s: System, limit: nat, m: Moment): Option<Record> {
    var notes := Notes(s, limit, m.step);
    if |notes| == 0 then None
    else match notes[|notes| - 1]
      case TitleObserved(_) => None
      case PlayStarted(item) => Some(Started(item.id, item.url, item.submitter, m.segment))
      case TitleChanged(id, title) => Some(Record.TitleChanged(id, title, m.segment))
      case PlayFinished(id, title, outcome) => Some(Finished(id, title, outcome))
  }

  function Chronicle(s: System, limit: nat, ms: seq<Moment>): seq<Timed>
    decreases |ms|
  {
    if |ms| == 0 then []
    else
      var rest := Chronicle(Advance(s, limit, ms[0].step), limit, ms[1..]);
      match RecordOf(s, limit, ms[0])
      case None => rest
      case Some(r) => [Timed(r, ms[0].at)] + rest
  }

  function StepsOf(ms: seq<Moment>): seq<Step> {
    seq(|ms|, i requires 0 <= i < |ms| => ms[i].step)
  }

  /** The item stays loaded through the whole run. */
  predicate StaysLoaded(s: System, limit: nat, ms: seq<Moment>, id: Id)
    decreases |ms|
  {
    s.loaded == Some(id) && (|ms| > 0 ==> StaysLoaded(Advance(s, limit, ms[0].step), limit, ms[1..], id))
  }

  predicate InTime(ms: seq<Moment>, from: int, to: int) {
    && (forall i :: 0 <= i < |ms| ==> from <= ms[i].at <= to)
    && (forall i, j :: 0 <= i < j < |ms| ==> ms[i].at <= ms[j].at)
  }

  /** The step ends the play of the loaded item. */
  predicate EndsPlay(s: System, limit: nat, step: Step) {
    s.loaded.Some? &&
    match step
    case Ended(_, _) => true
    case Failed(_, _, _, _) => Attempts(s.retries, s.loaded.value) >= limit
    case _ => false
  }

  function TitleOf(step: Step): string
    requires step.Ended? || step.Failed?
  {
    step.title
  }

  function OutcomeOf(step: Step): Outcome {
    if step.Ended? then Completed else Outcome.Failed
  }

  /** The record is of a title of the item that the player reported at that time. */
  predicate Heard(r: Timed, id: Id, ms: seq<Moment>) {
    exists i :: 0 <= i < |ms| && HeardAt(r, id, ms[i])
  }

  predicate HeardAt(r: Timed, id: Id, m: Moment) {
    m.step.StateEvent? && m.step.state.title != "" && r.at == m.at
    && r.record == Record.TitleChanged(id, m.step.state.title, m.segment)
  }

  /** While an item stays loaded, nothing is recorded but its title changes. */
  lemma RecordWhileLoaded(s: System, limit: nat, m: Moment, id: Id)
    requires s.loaded == Some(id) && Advance(s, limit, m.step).loaded == Some(id)
    ensures var r := RecordOf(s, limit, m); r.Some? ==> HeardAt(Timed(r.value, m.at), id, m)
  {
    hide Transact, Run;
  }

  lemma {:induction false} ChronicleWhileLoaded(s: System, limit: nat, ms: seq<Moment>, id: Id, from: int, to: int)
    requires StaysLoaded(s, limit, ms, id) && InTime(ms, from, to)
    ensures var rs := Chronicle(s, limit, ms);
      Timely(rs, from, to) && forall i :: 0 <= i < |rs| ==> During(rs[i].record, id) && Heard(rs[i], id, ms)
    decreases |ms|
  {
    if |ms| > 0 {
      RecordWhileLoaded(s, limit, ms[0], id);
      hide Advance, RecordOf;
      assert InTime(ms[1..], ms[0].at, to);
      ChronicleWhileLoaded(Advance(s, limit, ms[0].step), limit, ms[1..], id, ms[0].at, to);
      var rs, rest := Chronicle(s, limit, ms), Chronicle(Advance(s, limit, ms[0].step), limit, ms[1..]);
      forall i | 0 <= i < |rs| ensures During(rs[i].record, id) && Heard(rs[i], id, ms) {
        HeardLater(rs[i], id, ms, rest);
      }
    }
  }

  lemma HeardLater(r: Timed, id: Id, ms: seq<Moment>, rest: seq<Timed>)
    requires |ms| > 0 && (HeardAt(r, id, ms[0]) || r in rest)
    requires forall i :: 0 <= i < |rest| ==> Heard(rest[i], id, ms[1..])
    ensures During(r.record, id) && Heard(r, id, ms)
  {
    if !HeardAt(r, id, ms[0]) {
      var i :| 0 <= i < |ms[1..]| && HeardAt(r, id, ms[1..][i]);
      assert HeardAt(r, id, ms[i + 1]);
    }
  }

  /** The title reported last. */
  function LastReport(ms: seq<Moment>, title: string): string {
    if |ms| == 0 then title
    else LastReport(ms[1..], if ms[0].step.StateEvent? && ms[0].step.state.title != "" then ms[0].step.state.title
                             else title)
  }

  function LastRecorded(rs: seq<Timed>, title: string): string
    requires forall i :: 0 <= i < |rs| ==> rs[i].record.TitleChanged?
  {
    if |rs| == 0 then title else rs[|rs| - 1].record.title
  }

  /** No title is recorded twice in a row. */
  predicate NeverTwice(rs: seq<Timed>, title: string)
    requires forall i :: 0 <= i < |rs| ==> rs[i].record.TitleChanged?
  {
    && (|rs| > 0 ==> rs[0].record.title != title)
    && forall i :: 0 <= i < |rs| - 1 ==> rs[i].record.title != rs[i + 1].record.title
  }

  lemma RecordFollows(s: System, limit: nat, m: Moment, id: Id)
    requires s.loaded == Some(id) && !s.stopped && Advance(s, limit, m.step).loaded == Some(id)
    ensures var s', r := Advance(s, limit, m.step), RecordOf(s, limit, m);
      && !s'.stopped && s'.lastTitle == LastReport([m], s.lastTitle)
      && (r.Some? <==> s'.lastTitle != s.lastTitle)
      && (r.Some? ==> r.value.TitleChanged? && r.value.title == s'.lastTitle)
  {
    hide Transact, Run;
    assert [m][1..] == [];
  }

  /** While an item stays loaded, each new title is recorded, once: what was recorded last is what was reported last. */
  lemma {:induction false} TitlesAreRecordedOnce(s: System, limit: nat, ms: seq<Moment>, id: Id)
    requires StaysLoaded(s, limit, ms, id) && !s.stopped
    ensures var rs := Chronicle(s, limit, ms);
      && (forall i :: 0 <= i < |rs| ==> rs[i].record.TitleChanged?)
      && NeverTwice(rs, s.lastTitle) && LastRecorded(rs, s.lastTitle) == LastReport(ms, s.lastTitle)
    decreases |ms|
  {
    if |ms| > 0 {
      RecordFollows(s, limit, ms[0], id);
      assert [ms[0]][1..] == [];
      hide Advance, RecordOf;
      TitlesAreRecordedOnce(Advance(s, limit, ms[0].step), limit, ms[1..], id);
    }
  }

  lemma {:induction false} PlayConcat(rows: seq<Segment>, a: seq<Timed>, b: seq<Timed>, fold: Folding, retention: int)
    ensures Play(rows, a + b, fold, retention) == Play(Play(rows, a, fold, retention), b, fold, retention)
    decreases |a|
  {
    hide Recorded;
    if |a| == 0 {
      assert a + b == b;
    } else {
      assert (a + b)[1..] == a[1..] + b;
      PlayConcat(Recorded(rows, a[0].record, a[0].at, fold, retention), a[1..], b, fold, retention);
    }
  }

  lemma {:induction false} ChronicleConcat(s: System, limit: nat, a: seq<Moment>, b: seq<Moment>)
    ensures Chronicle(s, limit, a + b) == Chronicle(s, limit, a) + Chronicle(AdvanceAll(s, limit, StepsOf(a)), limit, b)
    decreases |a|
  {
    hide Advance, RecordOf;
    if |a| == 0 {
      assert a + b == b;
    } else {
      assert (a + b)[1..] == a[1..] + b && StepsOf(a)[1..] == StepsOf(a[1..]);
      ChronicleConcat(Advance(s, limit, a[0].step), limit, a[1..], b);
    }
  }

  lemma {:induction false} LoadedAtTheEnd(s: System, limit: nat, ms: seq<Moment>, id: Id)
    requires StaysLoaded(s, limit, ms, id)
    ensures AdvanceAll(s, limit, StepsOf(ms)).loaded == Some(id)
    decreases |ms|
  {
    hide Advance;
    if |ms| > 0 {
      assert StepsOf(ms)[1..] == StepsOf(ms[1..]);
      LoadedAtTheEnd(Advance(s, limit, ms[0].step), limit, ms[1..], id);
    }
  }

  lemma LastRecord(s: System, limit: nat, m: Moment)
    requires EndsPlay(s, limit, m.step)
    ensures Chronicle(s, limit, [m]) == [Timed(Finished(s.loaded.value, TitleOf(m.step), OutcomeOf(m.step)), m.at)]
  {
    hide Advance;
    assert [m][1..] == [];
  }

  lemma FirstRecord(s: System, limit: nat, m: Moment)
    requires m.step.Reconcile? && Loads(s, m.step.attempt)
    ensures var item := FirstPlayable(Shown(s, m.step.attempt).items).value;
      Chronicle(s, limit, [m]) == [Timed(Started(item.id, item.url, item.submitter, m.segment), m.at)]
  {
    hide Advance, Loads, Shown;
    assert [m][1..] == [];
  }

  /**
   Whatever clients and the player do in between: an item that is loaded at some
   time and stays loaded until it ends, or fails for the last time, leaves history
   segments that tile exactly that time, of its source and submitter, each titled
   as the player reported, and the last with its final title and outcome.
   */
  lemma PlayLeavesHistory(s: System, limit: nat, load: Moment, between: seq<Moment>, end: Moment,
                          rows: seq<Segment>, fold: Folding, retention: int)
    requires load.step.Reconcile? && Loads(s, load.step.attempt)
    requires var id := FirstPlayable(Shown(s, load.step.attempt).items).value.id;
      StaysLoaded(Advance(s, limit, load.step), limit, between, id)
    requires EndsPlay(AdvanceAll(Advance(s, limit, load.step), limit, StepsOf(between)), limit, end.step)
    requires load.at <= end.at && InTime(between, load.at, end.at) && Retained(retention, load.at, end.at)
    ensures var item := FirstPlayable(Shown(s, load.step.attempt).items).value;
      var after := Play(rows, Chronicle(s, limit, [load] + between + [end]), fold, retention);
      var start := Started(item.id, item.url, item.submitter, load.segment);
      var rs := Chronicle(Advance(s, limit, load.step), limit, between);
      && EndsWithPlay(Of(after, item.id), start, rs, load.at, end.at, TitleOf(end.step), OutcomeOf(end.step))
      && forall r :: r in rs ==> Heard(r, item.id, between)
  {
    var item := FirstPlayable(Shown(s, load.step.attempt).items).value;
    var s1 := Advance(s, limit, load.step);
    var s2 := AdvanceAll(s1, limit, StepsOf(between));
    FirstRecord(s, limit, load);
    LastRecord(s2, limit, end);
    LoadedAtTheEnd(s1, limit, between, item.id);
    ChronicleWhileLoaded(s1, limit, between, item.id, load.at, end.at);
    ChronicleOfPlay(s, limit, load, between, end);
    var start, rs := Started(item.id, item.url, item.submitter, load.segment), Chronicle(s1, limit, between);
    PlayIsTiled(rows, start, load.at, rs, TitleOf(end.step), OutcomeOf(end.step), end.at, fold, retention);
    hide Chronicle, Play, Recorded, EndsWithPlay, Notes, Advance;
    PlayOfThree(rows, Timed(start, load.at), rs,
                Timed(Finished(item.id, TitleOf(end.step), OutcomeOf(end.step)), end.at), fold, retention);
  }

  lemma ChronicleOfPlay(s: System, limit: nat, load: Moment, between: seq<Moment>, end: Moment)
    ensures var s1 := Advance(s, limit, load.step);
      Chronicle(s, limit, [load] + between + [end]) ==
      Chronicle(s, limit, [load]) + Chronicle(s1, limit, between)
      + Chronicle(AdvanceAll(s1, limit, StepsOf(between)), limit, [end])
  {
    hide Advance, RecordOf, Chronicle;
    var s1 := Advance(s, limit, load.step);
    assert [load] + between + [end] == [load] + (between + [end]);
    ChronicleConcat(s, limit, [load], between + [end]);
    ChronicleConcat(s1, limit, between, [end]);
    assert StepsOf([load]) == [load.step] && [load.step][1..] == [];
    assert AdvanceAll(s, limit, [load.step]) == AdvanceAll(s1, limit, []) == s1;
  }

  lemma PlayOfThree(rows: seq<Segment>, first: Timed, rs: seq<Timed>, last: Timed, fold: Folding, retention: int)
    ensures Play(rows, [first] + rs + [last], fold, retention) ==
      Recorded(Play(Recorded(rows, first.record, first.at, fold, retention), rs, fold, retention),
               last.record, last.at, fold, retention)
  {
    hide Recorded;
    var begun := Recorded(rows, first.record, first.at, fold, retention);
    var played := Play(begun, rs, fold, retention);
    assert ([first] + rs + [last])[1..] == rs + [last];
    PlayConcat(begun, rs, [last], fold, retention);
    assert Play(played, [last], fold, retention)
        == Play(Recorded(played, last.record, last.at, fold, retention), [], fold, retention);
  }
}
