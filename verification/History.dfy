/**
 Listening history: what was played when.  A stream's title changes split one
 play into segments, with a debounce; pruning deletes old segments.
 */
module History {
  import opened Wrappers
  import opened Positions
  import opened Arithmetic
  import opened Text

  datatype Outcome = Playing | Completed | Interrupted | Failed

  /** Times are milliseconds of a non-decreasing clock. */
  datatype Segment = Segment(id: Id, item: Id, url: string, submitter: string, title: string,
                             started: int, finished: Option<int>, outcome: Outcome)

  const DEBOUNCE: int := 5000

  /** Case folding of strings; titles are compared after it. */
  type Folding = string -> string

  datatype Record =
    | Started(item: Id, url: string, submitter: string, id: Id)
    | TitleChanged(item: Id, title: string, id: Id)
    | Finished(item: Id, title: string, outcome: Outcome)

  predicate Open(row: Segment, item: Id) {
    row.item == item && row.finished.None?
  }

  function OpenRows(rows: seq<Segment>, item: Id): seq<Segment> {
    if |rows| == 0 then []
    else if Open(rows[0], item) then [rows[0]] + OpenRows(rows[1..], item)
    else OpenRows(rows[1..], item)
  }

  /** Rewrites the open segments of an item: new title, end and outcome. */
  function Close(row: Segment, item: Id, title: Option<string>, at: int, outcome: Outcome): Segment {
    if Open(row, item)
    then row.(finished := Some(at), outcome := outcome, title := if title.Some? then title.value else row.title)
    else row
  }

  function CloseAll(rows: seq<Segment>, item: Id, title: Option<string>, at: int, outcome: Outcome): seq<Segment> {
    seq(|rows|, i requires 0 <= i < |rows| => Close(rows[i], item, title, at, outcome))
  }

  function Name(row: Segment, item: Id, title: string): Segment {
    if Open(row, item) then row.(title := title) else row
  }

  function NameAll(rows: seq<Segment>, item: Id, title: string): seq<Segment> {
    seq(|rows|, i requires 0 <= i < |rows| => Name(rows[i], item, title))
  }

  /** The segments that started at `cutoff` or later. */
  function Prune(rows: seq<Segment>, cutoff: int): seq<Segment> {
    if |rows| == 0 then []
    else if rows[0].started < cutoff then Prune(rows[1..], cutoff)
    else [rows[0]] + Prune(rows[1..], cutoff)
  }

  function Pruned(rows: seq<Segment>, retention: int, at: int): seq<Segment> {
    if retention > 0 then Prune(rows, at - retention) else rows
  }

  /** The new title splits the open segment. */
  predicate Rotates(open: Segment, title: string, at: int, fold: Folding) {
    title != "" && fold(Trim(open.title)) != fold(title) && open.title != "" && at - open.started >= DEBOUNCE
  }

  predicate Names(open: Segment, title: string, fold: Folding) {
    title != "" && fold(Trim(open.title)) != fold(title) && open.title == ""
  }

  function Recorded(rows: seq<Segment>, r: Record, at: int, fold: Folding, retention: int): seq<Segment> {
    match r
    case Started(item, url, submitter, id) =>
      CloseAll(rows, item, None, at, Interrupted) + [Segment(id, item, url, submitter, "", at, None, Playing)]
    case TitleChanged(item, raw, id) =>
      var title, open := Trim(raw), OpenRows(rows, item);
      if |open| == 0 then rows
      else if Names(open[0], title, fold) then NameAll(rows, item, title)
      else if Rotates(open[0], title, at, fold) then
        CloseAll(rows, item, None, at, Completed)
        + [Segment(id, item, open[0].url, open[0].submitter, title, at, None, Playing)]
      else rows
    case Finished(item, title, outcome) =>
      Pruned(CloseAll(rows, item, Some(title), at, outcome), retention, at)
  }

  // ----- at most one open segment per item -----

  ghost predicate OneOpen(rows: seq<Segment>) {
    forall i, j :: 0 <= i < j < |rows| ==>
      !(rows[i].item == rows[j].item && rows[i].finished.None? && rows[j].finished.None?)
  }

  lemma {:induction false} PruneKeepsOneOpen(rows: seq<Segment>, cutoff: int)
    requires OneOpen(rows)
    ensures OneOpen(Prune(rows, cutoff))
    ensures forall row :: row in Prune(rows, cutoff) ==> row in rows
    decreases |rows|
  {
    if |rows| > 0 {
      assert forall i :: 0 <= i < |rows[1..]| ==> rows[1..][i] == rows[i + 1];
      PruneKeepsOneOpen(rows[1..], cutoff);
      var rest := Prune(rows[1..], cutoff);
      forall j | 0 <= j < |rest| && rows[0].finished.None? && rest[j].finished.None?
        ensures rest[j].item != rows[0].item
      {
        assert rest[j] in rows[1..];
      }
    }
  }

  lemma AppendKeepsOneOpen(rows: seq<Segment>, item: Id, outcome: Outcome, row: Segment)
    requires OneOpen(rows) && row.item == item
    ensures OneOpen(CloseAll(rows, item, None, row.started, outcome) + [row])
  {
    var closed := CloseAll(rows, item, None, row.started, outcome);
    assert forall i :: 0 <= i < |closed| ==>
      closed[i].item == rows[i].item && (closed[i].finished.None? ==> rows[i].finished.None? && rows[i].item != item);
  }

  /** Every record keeps at most one open segment per item. */
  lemma RecordKeepsOneOpen(rows: seq<Segment>, r: Record, at: int, fold: Folding, retention: int)
    requires OneOpen(rows)
    ensures OneOpen(Recorded(rows, r, at, fold, retention))
  {
    match r
    case Started(item, url, submitter, id) =>
      AppendKeepsOneOpen(rows, item, Interrupted, Segment(id, item, url, submitter, "", at, None, Playing));
    case TitleChanged(item, raw, id) =>
      var open := OpenRows(rows, item);
      if |open| > 0 {
        AppendKeepsOneOpen(rows, item, Completed,
                           Segment(id, item, open[0].url, open[0].submitter, Trim(raw), at, None, Playing));
        assert OneOpen(NameAll(rows, item, Trim(raw)));
      }
    case Finished(item, title, outcome) =>
      var closed := CloseAll(rows, item, Some(title), at, outcome);
      assert OneOpen(closed);
      PruneKeepsOneOpen(closed, at - retention);
  }

  datatype Timed = Timed(record: Record, at: int)

  function Play(rows: seq<Segment>, rs: seq<Timed>, fold: Folding, retention: int): seq<Segment>
    decreases |rs|
  {
    if |rs| == 0 then rows
    else Play(Recorded(rows, rs[0].record, rs[0].at, fold, retention), rs[1..], fold, retention)
  }

  lemma {:induction false} HistoryKeepsOneOpen(rows: seq<Segment>, rs: seq<Timed>, fold: Folding, retention: int)
    requires OneOpen(rows)
    ensures OneOpen(Play(rows, rs, fold, retention))
    decreases |rs|
  {
    if |rs| > 0 {
      RecordKeepsOneOpen(rows, rs[0].record, rs[0].at, fold, retention);
      HistoryKeepsOneOpen(Recorded(rows, rs[0].record, rs[0].at, fold, retention), rs[1..], fold, retention);
    }
  }

  // ----- one play -----

  /** The segments of one item, in the order they were recorded. */
  function Of(rows: seq<Segment>, item: Id): seq<Segment> {
    if |rows| == 0 then []
    else if rows[0].item == item then [rows[0]] + Of(rows[1..], item)
    else Of(rows[1..], item)
  }

  predicate Closed(rows: seq<Segment>) {
    forall i :: 0 <= i < |rows| ==> rows[i].finished.Some?
  }

  /** Segments of a play begun at `from`: each starts where the one before ended, at least a debounce later. */
  predicate Chain(c: seq<Segment>, from: int) {
    && |c| > 0 && c[0].started == from
    && (forall i :: 0 <= i < |c| - 1 ==>
          c[i].finished == Some(c[i + 1].started) && c[i + 1].started - c[i].started >= DEBOUNCE)
  }

  predicate OpenChain(c: seq<Segment>, from: int) {
    Chain(c, from) && c[|c| - 1].finished.None?
  }

  lemma {:induction false} OfConcat(a: seq<Segment>, b: seq<Segment>, item: Id)
    ensures Of(a + b, item) == Of(a, item) + Of(b, item)
    decreases |a|
  {
    if |a| == 0 {
      assert a + b == b;
    } else {
      assert (a + b)[1..] == a[1..] + b;
      OfConcat(a[1..], b, item);
    }
  }

  lemma {:induction false} OfClose(rows: seq<Segment>, item: Id, other: Id, title: Option<string>, at: int,
                                   outcome: Outcome)
    ensures Of(CloseAll(rows, other, title, at, outcome), item) == CloseAll(Of(rows, item), other, title, at, outcome)
    decreases |rows|
  {
    if |rows| > 0 {
      OfClose(rows[1..], item, other, title, at, outcome);
      assert CloseAll(rows, other, title, at, outcome)[1..] == CloseAll(rows[1..], other, title, at, outcome);
      assert CloseAll([rows[0]] + Of(rows[1..], item), other, title, at, outcome)
        == [Close(rows[0], other, title, at, outcome)] + CloseAll(Of(rows[1..], item), other, title, at, outcome);
    }
  }

  lemma {:induction false} OfName(rows: seq<Segment>, item: Id, other: Id, title: string)
    ensures Of(NameAll(rows, other, title), item) == NameAll(Of(rows, item), other, title)
    decreases |rows|
  {
    if |rows| > 0 {
      OfName(rows[1..], item, other, title);
      assert NameAll(rows, other, title)[1..] == NameAll(rows[1..], other, title);
      assert NameAll([rows[0]] + Of(rows[1..], item), other, title)
        == [Name(rows[0], other, title)] + NameAll(Of(rows[1..], item), other, title);
    }
  }

  lemma {:induction false} OfPrune(rows: seq<Segment>, item: Id, cutoff: int)
    ensures Of(Prune(rows, cutoff), item) == Prune(Of(rows, item), cutoff)
    decreases |rows|
  {
    if |rows| > 0 {
      OfPrune(rows[1..], item, cutoff);
    }
  }

  lemma {:induction false} PruneConcat(a: seq<Segment>, b: seq<Segment>, cutoff: int)
    ensures Prune(a + b, cutoff) == Prune(a, cutoff) + Prune(b, cutoff)
    decreases |a|
  {
    if |a| == 0 {
      assert a + b == b;
    } else {
      assert (a + b)[1..] == a[1..] + b;
      PruneConcat(a[1..], b, cutoff);
    }
  }

  lemma {:induction false} PruneKeepsRecent(c: seq<Segment>, cutoff: int)
    requires forall i :: 0 <= i < |c| ==> c[i].started >= cutoff
    ensures Prune(c, cutoff) == c
    decreases |c|
  {
    if |c| > 0 {
      PruneKeepsRecent(c[1..], cutoff);
    }
  }

  lemma {:induction false} PruneKeepsClosed(c: seq<Segment>, cutoff: int)
    requires Closed(c)
    ensures Closed(Prune(c, cutoff))
    decreases |c|
  {
    if |c| > 0 {
      PruneKeepsClosed(c[1..], cutoff);
    }
  }

  lemma {:induction false} ChainStartsLater(c: seq<Segment>, from: int, i: nat)
    requires Chain(c, from) && i < |c|
    ensures c[i].started >= from + i * DEBOUNCE
    decreases i
  {
    if i > 0 {
      ChainStartsLater(c, from, i - 1);
    }
  }

  lemma {:induction false} OpenRowsOf(rows: seq<Segment>, item: Id)
    ensures OpenRows(rows, item) == OpenRows(Of(rows, item), item)
    decreases |rows|
  {
    if |rows| > 0 {
      OpenRowsOf(rows[1..], item);
    }
  }

  lemma {:induction false} OpenRowsLast(prefix: seq<Segment>, c: seq<Segment>, item: Id)
    requires Closed(prefix) && |c| > 0 && c[|c| - 1].finished.None? && c[|c| - 1].item == item
    requires Closed(c[..|c| - 1])
    ensures OpenRows(prefix + c, item) == [c[|c| - 1]]
    decreases |prefix| + |c|
  {
    if |prefix| > 0 {
      assert (prefix + c)[1..] == prefix[1..] + c;
      assert (prefix + c)[0].finished.Some?;
      OpenRowsLast(prefix[1..], c, item);
    } else {
      assert prefix + c == c;
      if |c| > 1 {
        assert c[0] == c[..|c| - 1][0];
        assert c[1..][..|c[1..]| - 1] == c[..|c| - 1][1..];
        OpenRowsLast([], c[1..], item);
        assert [] + c[1..] == c[1..];
      } else {
        assert c[1..] == [];
      }
    }
  }

  lemma {:induction false} OfItems(rows: seq<Segment>, item: Id)
    ensures forall i :: 0 <= i < |Of(rows, item)| ==> Of(rows, item)[i].item == item
    decreases |rows|
  {
    if |rows| > 0 {
      OfItems(rows[1..], item);
    }
  }

  lemma CloseOther(rows: seq<Segment>, other: Id, title: Option<string>, at: int, outcome: Outcome)
    requires forall i :: 0 <= i < |rows| ==> rows[i].item != other || rows[i].finished.Some?
    ensures CloseAll(rows, other, title, at, outcome) == rows
  {
  }

  lemma NameOther(rows: seq<Segment>, other: Id, title: string)
    requires forall i :: 0 <= i < |rows| ==> rows[i].item != other || rows[i].finished.Some?
    ensures NameAll(rows, other, title) == rows
  {
  }

  /** The segments of a play in progress: earlier, closed ones, then an open chain. */
  ghost predicate InPlay(rows: seq<Segment>, item: Id, prefix: seq<Segment>, c: seq<Segment>, from: int, now: int) {
    && Of(rows, item) == prefix + c && Closed(prefix) && OpenChain(c, from)
    && c[|c| - 1].started <= now
  }

  lemma ChainClosedBefore(c: seq<Segment>, from: int)
    requires Chain(c, from)
    ensures Closed(c[..|c| - 1])
  {
    var front := c[..|c| - 1];
    forall i | 0 <= i < |front| ensures front[i].finished.Some? {
      assert c[i].finished == Some(c[i + 1].started);
    }
  }

  /** What a play is cut off by: the retention period reaches back at least to its start. */
  predicate Retained(retention: int, from: int, at: int) {
    retention <= 0 || at - retention <= from
  }

  lemma PruneInPlay(rows: seq<Segment>, item: Id, prefix: seq<Segment>, c: seq<Segment>, from: int, retention: int,
                    at: int)
    requires Of(rows, item) == prefix + c && Closed(prefix) && Chain(c, from) && Retained(retention, from, at)
    ensures exists prefix' :: Closed(prefix') && Of(Pruned(rows, retention, at), item) == prefix' + c
  {
    if retention > 0 {
      OfPrune(rows, item, at - retention);
      PruneConcat(prefix, c, at - retention);
      forall i | 0 <= i < |c| ensures c[i].started >= at - retention {
        ChainStartsLater(c, from, i);
      }
      PruneKeepsRecent(c, at - retention);
      PruneKeepsClosed(prefix, at - retention);
      assert Of(Pruned(rows, retention, at), item) == Prune(prefix, at - retention) + c;
    }
  }

  /** Records about other items leave a play alone. */
  lemma OtherRecord(rows: seq<Segment>, item: Id, prefix: seq<Segment>, c: seq<Segment>, from: int, now: int,
                    r: Record, at: int, fold: Folding, retention: int) returns (prefix': seq<Segment>)
    requires InPlay(rows, item, prefix, c, from, now) && now <= at && r.item != item && Retained(retention, from, at)
    ensures InPlay(Recorded(rows, r, at, fold, retention), item, prefix', c, from, at)
  {
    OfItems(rows, item);
    prefix' := prefix;
    match r
    case Started(other, url, submitter, id) =>
      OfClose(rows, item, other, None, at, Interrupted);
      CloseOther(Of(rows, item), other, None, at, Interrupted);
      OfConcat(CloseAll(rows, other, None, at, Interrupted),
               [Segment(id, other, url, submitter, "", at, None, Playing)], item);
    case TitleChanged(other, raw, id) =>
      var open := OpenRows(rows, other);
      OfClose(rows, item, other, None, at, Completed);
      CloseOther(Of(rows, item), other, None, at, Completed);
      OfName(rows, item, other, Trim(raw));
      NameOther(Of(rows, item), other, Trim(raw));
      if |open| > 0 {
        OfConcat(CloseAll(rows, other, None, at, Completed),
                 [Segment(id, other, open[0].url, open[0].submitter, Trim(raw), at, None, Playing)], item);
      }
    case Finished(other, title, outcome) =>
      OfClose(rows, item, other, Some(title), at, outcome);
      CloseOther(Of(rows, item), other, Some(title), at, outcome);
      PruneInPlay(CloseAll(rows, other, Some(title), at, outcome), item, prefix, c, from, retention, at);
      prefix' :| Closed(prefix') && Of(Recorded(rows, r, at, fold, retention), item) == prefix' + c;
  }

  /** The open segment is the last of the chain; renaming or closing it touches nothing else. */
  lemma CloseLast(prefix: seq<Segment>, c: seq<Segment>, item: Id, from: int, title: Option<string>, at: int,
                  outcome: Outcome)
    requires Closed(prefix) && OpenChain(c, from) && forall i :: 0 <= i < |c| ==> c[i].item == item
    ensures CloseAll(prefix + c, item, title, at, outcome)
      == prefix + c[|c| - 1 := Close(c[|c| - 1], item, title, at, outcome)]
  {
    ChainClosedBefore(c, from);
    assert forall i :: 0 <= i < |c| - 1 ==> c[i] == c[..|c| - 1][i];
  }

  lemma NameLast(prefix: seq<Segment>, c: seq<Segment>, item: Id, from: int, title: string)
    requires Closed(prefix) && OpenChain(c, from) && forall i :: 0 <= i < |c| ==> c[i].item == item
    ensures NameAll(prefix + c, item, title) == prefix + c[|c| - 1 := c[|c| - 1].(title := title)]
  {
    ChainClosedBefore(c, from);
    assert forall i :: 0 <= i < |c| - 1 ==> c[i] == c[..|c| - 1][i];
  }

  lemma OwnRename(rows: seq<Segment>, item: Id, prefix: seq<Segment>, c: seq<Segment>, from: int, now: int,
                  title: string)
    requires InPlay(rows, item, prefix, c, from, now) && forall i :: 0 <= i < |c| ==> c[i].item == item
    ensures InPlay(NameAll(rows, item, title), item, prefix, c[|c| - 1 := c[|c| - 1].(title := title)], from, now)
  {
    OfName(rows, item, item, title);
    NameLast(prefix, c, item, from, title);
  }

  lemma OwnSplit(rows: seq<Segment>, item: Id, prefix: seq<Segment>, c: seq<Segment>, from: int, now: int,
                 next: Segment)
    returns (c': seq<Segment>)
    requires InPlay(rows, item, prefix, c, from, now) && forall i :: 0 <= i < |c| ==> c[i].item == item
    requires next.item == item && next.finished.None? && next.started - c[|c| - 1].started >= DEBOUNCE
    ensures InPlay(CloseAll(rows, item, None, next.started, Completed) + [next], item, prefix, c', from, next.started)
    ensures c' == c[|c| - 1 := c[|c| - 1].(finished := Some(next.started), outcome := Completed)] + [next]
  {
    var at := next.started;
    OfClose(rows, item, item, None, at, Completed);
    CloseLast(prefix, c, item, from, None, at, Completed);
    OfConcat(CloseAll(rows, item, None, at, Completed), [next], item);
    assert Of([next], item) == [next];
    var closed := c[|c| - 1 := Close(c[|c| - 1], item, None, at, Completed)];
    c' := closed + [next];
    assert prefix + c' == (prefix + closed) + [next];
  }

  // ----- what the segments of a play tell -----

  /** The record is the title change that opened the segment. */
  predicate OpensAt(r: Timed, row: Segment) {
    r.at == row.started && r.record.TitleChanged? && r.record.item == row.item && r.record.id == row.id
  }

  predicate Tells(r: Timed, row: Segment) {
    r.record.TitleChanged? && r.record.item == row.item && Trim(r.record.title) == row.title
  }

  /**
   The segments of the play begun by `start` and told of by `rs`: all have the
   item, source and submitter of the start.  Each but the first was opened by a
   title change at its very start, and carries that title; the first carries the
   title of one, if any.  Of the titles only those of the first `n` are meant.
   */
  ghost predicate Told(c: seq<Segment>, start: Record, rs: seq<Timed>, n: int)
    requires start.Started?
  {
    && |c| > 0 && c[0].id == start.id
    && (forall i :: 0 <= i < |c| ==>
          c[i].item == start.item && c[i].url == start.url && c[i].submitter == start.submitter)
    && (forall i :: 0 <= i < |c| - 1 ==> c[i].outcome == Completed && c[i].title != "")
    && (n > 0 && c[0].title != "" ==> exists r :: r in rs && Tells(r, c[0]))
    && (forall i :: 0 < i < |c| ==>
          exists r :: r in rs && OpensAt(r, c[i]) && (i < n ==> Tells(r, c[i]) && c[i].title != ""))
  }

  lemma ToldMore(c: seq<Segment>, start: Record, rs: seq<Timed>, r: Timed)
    requires start.Started? && Told(c, start, rs, |c|)
    ensures Told(c, start, rs + [r], |c|)
  {
    forall i | 0 < i < |c|
      ensures exists x :: x in rs + [r] && OpensAt(x, c[i]) && Tells(x, c[i]) && c[i].title != ""
    {
      var x :| x in rs && OpensAt(x, c[i]) && Tells(x, c[i]) && c[i].title != "";
      assert x in rs + [r];
    }
    if c[0].title != "" {
      var x :| x in rs && Tells(x, c[0]);
      assert x in rs + [r];
    }
  }

  /** Only the first segment is ever without a title, and gets the first one there is. */
  lemma ToldName(c: seq<Segment>, start: Record, rs: seq<Timed>, r: Timed)
    requires start.Started? && Told(c, start, rs, |c|) && c[|c| - 1].title == ""
    requires r.record.TitleChanged? && r.record.item == start.item
    ensures Told(c[|c| - 1 := c[|c| - 1].(title := Trim(r.record.title))], start, rs + [r], |c|)
  {
    assert |c| == 1;
    hide Trim;
    assert r in rs + [r] && Tells(r, c[0].(title := Trim(r.record.title)));
  }

  lemma ToldSplit(c: seq<Segment>, start: Record, rs: seq<Timed>, r: Timed)
    requires start.Started? && Told(c, start, rs, |c|) && c[|c| - 1].title != ""
    requires r.record.TitleChanged? && r.record.item == start.item && Trim(r.record.title) != ""
    ensures var last := c[|c| - 1];
      var next := Segment(r.record.id, start.item, last.url, last.submitter, Trim(r.record.title), r.at, None, Playing);
      Told(c[|c| - 1 := last.(finished := Some(r.at), outcome := Completed)] + [next], start, rs + [r], |c| + 1)
  {
    hide Trim;
    ToldMore(c, start, rs, r);
    assert r in rs + [r];
  }

  lemma OpenedAt(c: seq<Segment>, start: Record, rs: seq<Timed>, i: nat)
    requires start.Started? && Told(c, start, rs, |c|) && 0 < i < |c|
    ensures exists r :: r in rs && OpensAt(r, c[i]) && Tells(r, c[i]) && c[i].title != ""
  {
  }

  /** The end of the play gives the last segment another title. */
  lemma ToldEnd(c: seq<Segment>, start: Record, rs: seq<Timed>, last: Segment)
    requires start.Started? && Told(c, start, rs, |c|)
    requires last == c[|c| - 1].(title := last.title, finished := last.finished, outcome := last.outcome)
    ensures Told(c[|c| - 1 := last], start, rs, |c| - 1)
  {
    hide Trim;
    var c', n := c[|c| - 1 := last], |c| - 1;
    assert forall i :: 0 <= i < n ==> c'[i] == c[i];
    forall i | 0 < i < |c'|
      ensures exists r :: r in rs && OpensAt(r, c'[i]) && (i < n ==> Tells(r, c'[i]) && c'[i].title != "")
    {
      OpenedAt(c, start, rs, i);
      var r :| r in rs && OpensAt(r, c[i]) && Tells(r, c[i]) && c[i].title != "";
      assert OpensAt(r, c'[i]);
    }
  }

  /** A title change of the item itself renames its open segment, splits it, or does nothing. */
  lemma OwnTitle(rows: seq<Segment>, start: Record, told: seq<Timed>, prefix: seq<Segment>, c: seq<Segment>, from: int,
                 now: int, raw: string, id: Id, at: int, fold: Folding, retention: int) returns (c': seq<Segment>)
    requires start.Started? && InPlay(rows, start.item, prefix, c, from, now) && now <= at
    requires Told(c, start, told, |c|)
    ensures var after := Recorded(rows, TitleChanged(start.item, raw, id), at, fold, retention);
      InPlay(after, start.item, prefix, c', from, at)
    ensures Told(c', start, told + [Timed(TitleChanged(start.item, raw, id), at)], |c'|)
  {
    var item, r := start.item, Timed(TitleChanged(start.item, raw, id), at);
    PlayingRow(rows, item, prefix, c, from, now);
    InPlayLater(rows, item, prefix, c, from, now, at);
    var last, title := c[|c| - 1], Trim(raw);
    hide InPlay, OpenRows, Told, Trim;
    c' := c;
    if Names(last, title, fold) {
      OwnRename(rows, item, prefix, c, from, at, title);
      c' := c[|c| - 1 := last.(title := title)];
      ToldName(c, start, told, r);
    } else if Rotates(last, title, at, fold) {
      c' := OwnSplit(rows, item, prefix, c, from, now,
                     Segment(id, item, last.url, last.submitter, title, at, None, Playing));
      ToldSplit(c, start, told, r);
    } else {
      ToldMore(c, start, told, r);
    }
  }

  lemma PlayingRow(rows: seq<Segment>, item: Id, prefix: seq<Segment>, c: seq<Segment>, from: int, now: int)
    requires InPlay(rows, item, prefix, c, from, now)
    ensures |c| > 0 && OpenRows(rows, item) == [c[|c| - 1]]
    ensures forall i :: 0 <= i < |c| ==> c[i].item == item
  {
    OfItems(rows, item);
    assert forall i :: 0 <= i < |c| ==> c[i] == (prefix + c)[|prefix| + i];
    ChainClosedBefore(c, from);
    OpenRowsOf(rows, item);
    OpenRowsLast(prefix, c, item);
  }

  lemma InPlayLater(rows: seq<Segment>, item: Id, prefix: seq<Segment>, c: seq<Segment>, from: int, now: int, at: int)
    requires InPlay(rows, item, prefix, c, from, now) && now <= at
    ensures InPlay(rows, item, prefix, c, from, at)
  {
  }

  /** A record that neither starts nor finishes the item. */
  predicate During(r: Record, item: Id) {
    r.item != item || r.TitleChanged?
  }

  predicate Timely(rs: seq<Timed>, from: int, to: int) {
    && (forall i :: 0 <= i < |rs| ==> from <= rs[i].at <= to)
    && (forall i, j :: 0 <= i < j < |rs| ==> rs[i].at <= rs[j].at)
  }

  lemma OneRecord(rows: seq<Segment>, start: Record, told: seq<Timed>, prefix: seq<Segment>, c: seq<Segment>, from: int,
                  now: int, r: Timed, fold: Folding, retention: int)
    returns (prefix': seq<Segment>, c': seq<Segment>)
    requires start.Started? && InPlay(rows, start.item, prefix, c, from, now) && Told(c, start, told, |c|)
    requires now <= r.at && Retained(retention, from, r.at) && During(r.record, start.item)
    ensures InPlay(Recorded(rows, r.record, r.at, fold, retention), start.item, prefix', c', from, r.at)
    ensures Told(c', start, told + [r], |c'|)
  {
    hide Told, InPlay, Recorded;
    prefix', c' := prefix, c;
    if r.record.item != start.item {
      prefix' := OtherRecord(rows, start.item, prefix, c, from, now, r.record, r.at, fold, retention);
      ToldMore(c, start, told, r);
    } else {
      c' := OwnTitle(rows, start, told, prefix, c, from, now, r.record.title, r.record.id, r.at, fold, retention);
    }
  }

  lemma TimelyRest(rs: seq<Timed>, from: int, to: int)
    requires Timely(rs, from, to) && |rs| > 0
    ensures from <= rs[0].at <= to && Timely(rs[1..], rs[0].at, to)
  {
  }

  lemma {:induction false} PlayContinues(rows: seq<Segment>, start: Record, told: seq<Timed>, prefix: seq<Segment>,
                                         c: seq<Segment>, from: int, now: int, rs: seq<Timed>, to: int, fold: Folding,
                                         retention: int)
    returns (prefix': seq<Segment>, c': seq<Segment>)
    requires start.Started? && InPlay(rows, start.item, prefix, c, from, now) && Told(c, start, told, |c|)
    requires Timely(rs, now, to) && Retained(retention, from, to) && now <= to
    requires forall i :: 0 <= i < |rs| ==> During(rs[i].record, start.item)
    ensures InPlay(Play(rows, rs, fold, retention), start.item, prefix', c', from, to)
    ensures Told(c', start, told + rs, |c'|)
    decreases |rs|
  {
    hide Told, InPlay, Recorded, Timely;
    if |rs| == 0 {
      assert told + rs == told;
      InPlayLater(rows, start.item, prefix, c, from, now, to);
      return prefix, c;
    }
    TimelyRest(rs, now, to);
    var p1, c1 := OneRecord(rows, start, told, prefix, c, from, now, rs[0], fold, retention);
    assert told + [rs[0]] + rs[1..] == told + rs;
    prefix', c' := PlayContinues(Recorded(rows, rs[0].record, rs[0].at, fold, retention), start, told + [rs[0]], p1, c1,
                                 from, rs[0].at, rs[1..], to, fold, retention);
  }

  /** Segments that fill [from, to] without gap or overlap, all but the last at least a debounce long. */
  predicate Tiles(c: seq<Segment>, from: int, to: int) {
    Chain(c, from) && c[|c| - 1].finished == Some(to) && c[|c| - 1].started <= to
  }

  /** The segments from index k on are the finished play of [from, to]; those before it are closed. */
  ghost predicate Finishes(rows: seq<Segment>, k: int, start: Record, rs: seq<Timed>, from: int, to: int, title: string,
                           outcome: Outcome)
    requires start.Started?
  {
    && 0 <= k < |rows| && Closed(rows[..k]) && Tiles(rows[k..], from, to)
    && |rows| - k <= 1 + (to - from) / DEBOUNCE
    && Told(rows[k..], start, rs, |rows| - k - 1)
    && rows[|rows| - 1].title == title && rows[|rows| - 1].outcome == outcome
  }

  ghost predicate EndsWithPlay(rows: seq<Segment>, start: Record, rs: seq<Timed>, from: int, to: int, title: string,
                               outcome: Outcome)
    requires start.Started?
  {
    exists k :: Finishes(rows, k, start, rs, from, to, title, outcome)
  }

  lemma BeginsInPlay(rows: seq<Segment>, start: Record, from: int, fold: Folding, retention: int)
    returns (prefix: seq<Segment>, c: seq<Segment>)
    requires start.Started?
    ensures InPlay(Recorded(rows, start, from, fold, retention), start.item, prefix, c, from, from)
    ensures Told(c, start, [], |c|)
  {
    var item := start.item;
    var first := Segment(start.id, item, start.url, start.submitter, "", from, None, Playing);
    var closed := CloseAll(rows, item, None, from, Interrupted);
    OfConcat(closed, [first], item);
    OfClose(rows, item, item, None, from, Interrupted);
    OfItems(rows, item);
    assert Of([first], item) == [first];
    prefix, c := Of(closed, item), [first];
  }

  lemma TilesFinish(before: seq<Segment>, c: seq<Segment>, start: Record, rs: seq<Timed>, from: int, to: int,
                    title: string, outcome: Outcome)
    requires start.Started? && Told(c, start, rs, |c| - 1)
    requires Closed(before) && Tiles(c, from, to) && c[|c| - 1].title == title && c[|c| - 1].outcome == outcome
    ensures Finishes(before + c, |before|, start, rs, from, to, title, outcome)
  {
    hide Told;
    ChainStartsLater(c, from, |c| - 1);
    QuotientAtLeast(to - from, |c| - 1, DEBOUNCE);
    assert (before + c)[..|before|] == before && (before + c)[|before|..] == c;
  }

  lemma EndsTiled(rows: seq<Segment>, start: Record, rs: seq<Timed>, prefix: seq<Segment>, open: seq<Segment>,
                  from: int,
                  title: string, outcome: Outcome, to: int, fold: Folding, retention: int) returns (k: nat)
    requires start.Started? && Told(open, start, rs, |open|)
    requires InPlay(rows, start.item, prefix, open, from, to) && Retained(retention, from, to) && from <= to
    ensures var ended := Of(Recorded(rows, Finished(start.item, title, outcome), to, fold, retention), start.item);
      Finishes(ended, k, start, rs, from, to, title, outcome)
  {
    hide Told;
    var item := start.item;
    OfItems(rows, item);
    assert forall i :: 0 <= i < |open| ==> open[i] == (prefix + open)[|prefix| + i];
    OfClose(rows, item, item, Some(title), to, outcome);
    CloseLast(prefix, open, item, from, Some(title), to, outcome);
    var c := open[|open| - 1 := Close(open[|open| - 1], item, Some(title), to, outcome)];
    PruneInPlay(CloseAll(rows, item, Some(title), to, outcome), item, prefix, c, from, retention, to);
    ToldEnd(open, start, rs, c[|c| - 1]);
    var ended := Of(Recorded(rows, Finished(item, title, outcome), to, fold, retention), item);
    hide Recorded, Of, CloseAll, Close, Pruned, InPlay, OpenChain, Retained;
    var before :| Closed(before) && ended == before + c;
    TilesFinish(before, c, start, rs, from, to, title, outcome);
    k := |before|;
  }

  /**
   From its start at `from`, through any title changes and anything recorded about
   other items, to its end at `to`, a play leaves segments that tile [from, to],
   provided the retention period does not cut into it.  They are of the item,
   source and submitter of the start, and carry the titles told of.
   */
  lemma {:induction false} PlayIsTiled(rows: seq<Segment>, start: Record, from: int, rs: seq<Timed>, title: string,
                                       outcome: Outcome, to: int, fold: Folding, retention: int)
    requires start.Started? && from <= to && Timely(rs, from, to) && Retained(retention, from, to)
    requires forall i :: 0 <= i < |rs| ==> During(rs[i].record, start.item)
    ensures var begun := Recorded(rows, start, from, fold, retention);
      var ended := Recorded(Play(begun, rs, fold, retention), Finished(start.item, title, outcome), to, fold,
                            retention);
      EndsWithPlay(Of(ended, start.item), start, rs, from, to, title, outcome)
  {
    hide Told;
    var begun := Recorded(rows, start, from, fold, retention);
    var before, first := BeginsInPlay(rows, start, from, fold, retention);
    var prefix, open := PlayContinues(begun, start, [], before, first, from, from, rs, to, fold, retention);
    assert [] + rs == rs;
    var played := Play(begun, rs, fold, retention);
    var k := EndsTiled(played, start, rs, prefix, open, from, title, outcome, to, fold, retention);
  }

  /** A tiling covers every moment exactly once. */
  lemma {:induction false} TilesCoverOnce(c: seq<Segment>, from: int, to: int, t: int)
    requires Tiles(c, from, to) && from <= t < to
    ensures exists k :: 0 <= k < |c| && Covers(c[k], t)
    ensures forall j, k :: 0 <= j < k < |c| ==> !(Covers(c[j], t) && Covers(c[k], t))
    decreases |c|
  {
    if |c| == 1 {
      assert Covers(c[0], t);
    } else {
      assert c[0].finished == Some(c[1].started);
      var rest := c[1..];
      assert forall i :: 0 <= i < |rest| ==> rest[i] == c[i + 1];
      if t < c[1].started {
        assert Covers(c[0], t);
        forall k | 1 <= k < |c| ensures !Covers(c[k], t) {
          ChainStartsLater(rest, c[1].started, k - 1);
        }
      } else {
        TilesCoverOnce(rest, c[1].started, to, t);
        var k :| 0 <= k < |rest| && Covers(rest[k], t);
        assert Covers(c[k + 1], t);
        forall i, j | 0 <= i < j < |c| ensures !(Covers(c[i], t) && Covers(c[j], t)) {
          if i > 0 {
            assert !(Covers(rest[i - 1], t) && Covers(rest[j - 1], t));
          }
        }
      }
    }
  }

  predicate Covers(row: Segment, t: int) {
    row.started <= t && row.finished.Some? && t < row.finished.value
  }

  // ----- the store -----

  lemma {:induction false} NoOpenRows(rows: seq<Segment>, item: Id)
    requires forall i :: 0 <= i < |rows| ==> !Open(rows[i], item)
    ensures OpenRows(rows, item) == []
    decreases |rows|
  {
    if |rows| > 0 {
      NoOpenRows(rows[1..], item);
    }
  }

  lemma {:induction false} OneOpenRow(rows: seq<Segment>, item: Id, k: nat)
    requires OneOpen(rows) && k < |rows| && Open(rows[k], item)
    ensures OpenRows(rows, item) == [rows[k]]
    ensures forall i :: 0 <= i < |rows| && i != k ==> !Open(rows[i], item)
    decreases k
  {
    var rest := rows[1..];
    assert forall i :: 0 <= i < |rest| ==> rest[i] == rows[i + 1];
    if k == 0 {
      NoOpenRows(rest, item);
    } else {
      OneOpenRow(rest, item, k - 1);
    }
  }

  /** Updating the one open row by its id is updating every open row of the item. */
  lemma UpdateOneRow(rows: seq<Segment>, item: Id, k: nat)
    requires OneOpen(rows) && k < |rows| && Open(rows[k], item)
    ensures OpenRows(rows, item) == [rows[k]]
    ensures forall title :: NameAll(rows, item, title) == rows[k := rows[k].(title := title)]
    ensures forall title, at, outcome ::
      CloseAll(rows, item, title, at, outcome) == rows[k := Close(rows[k], item, title, at, outcome)]
  {
    OneOpenRow(rows, item, k);
  }

  class HistoryStore {
    const fold: Folding
    const retention: int
    var rows: seq<Segment>

    ghost predicate Valid()
      reads this
    {
      OneOpen(rows)
    }

    constructor (fold: Folding, retention: int)
      ensures Valid() && rows == [] && this.fold == fold && this.retention == retention
    {
      this.fold, this.retention, rows := fold, retention, [];
    }

    /** The open segment of an item that started last. */
    method FindOpen(item: Id) returns (k: Option<nat>)
      ensures k.Some? ==> k.value < |rows| && Open(rows[k.value], item)
      ensures k.Some? ==> forall i :: 0 <= i < |rows| && Open(rows[i], item) ==>
        rows[i].started <= rows[k.value].started
      ensures k.None? ==> forall i :: 0 <= i < |rows| ==> !Open(rows[i], item)
    {
      k := None;
      for i := 0 to |rows|
        invariant k.Some? ==> k.value < i && Open(rows[k.value], item)
        invariant k.Some? ==> forall j :: 0 <= j < i && Open(rows[j], item) ==> rows[j].started <= rows[k.value].started
        invariant k.None? ==> forall j :: 0 <= j < i ==> !Open(rows[j], item)
      {
        if Open(rows[i], item) && (k.None? || rows[i].started > rows[k.value].started) {
          k := Some(i);
        }
      }
    }

    method RecordStarted(item: Id, url: string, submitter: string, id: Id, now: int)
      requires Valid()
      modifies this
      ensures Valid() && rows == Recorded(old(rows), Started(item, url, submitter, id), now, fold, retention)
    {
      hide OneOpen, OpenRows;
      RecordKeepsOneOpen(rows, Started(item, url, submitter, id), now, fold, retention);
      ghost var before := rows;
      for i := 0 to |rows|
        invariant |rows| == |before|
        invariant forall j :: 0 <= j < |rows| ==>
          rows[j] == if j < i then Close(before[j], item, None, now, Interrupted) else before[j]
      {
        if rows[i].item == item && rows[i].finished.None? {
          rows := rows[i := rows[i].(finished := Some(now), outcome := Interrupted)];
        }
      }
      assert rows == CloseAll(before, item, None, now, Interrupted);
      rows := rows + [Segment(id, item, url, submitter, "", now, None, Playing)];
    }

    method RecordTitleChanged(item: Id, raw: string, id: Id, now: int) returns (rotated: bool)
      requires Valid()
      modifies this
      ensures Valid() && rows == Recorded(old(rows), TitleChanged(item, raw, id), now, fold, retention)
      ensures rotated <==> |rows| == |old(rows)| + 1
    {
      hide OneOpen, OpenRows, NameAll, CloseAll, Trim;
      RecordKeepsOneOpen(rows, TitleChanged(item, raw, id), now, fold, retention);
      var title := Trim(raw);
      if title == "" {
        return false;
      }
      var found := FindOpen(item);
      if found.None? {
        NoOpenRows(rows, item);
        return false;
      }
      var k := found.value;
      UpdateOneRow(rows, item, k);
      var open := rows[k];
      if fold(Trim(open.title)) == fold(title) {
        return false;
      }
      if open.title == "" {
        rows := rows[k := open.(title := title)];
        return false;
      }
      if now - open.started < DEBOUNCE {
        return false;
      }
      rows := rows[k := open.(finished := Some(now), outcome := Completed)];
      rows := rows + [Segment(id, item, open.url, open.submitter, title, now, None, Playing)];
      return true;
    }

    method RecordFinished(item: Id, title: string, outcome: Outcome, now: int)
      requires Valid()
      modifies this
      ensures Valid() && rows == Recorded(old(rows), Finished(item, title, outcome), now, fold, retention)
    {
      hide OneOpen, OpenRows;
      RecordKeepsOneOpen(rows, Finished(item, title, outcome), now, fold, retention);
      var found := FindOpen(item);
      if found.Some? {
        var k := found.value;
        UpdateOneRow(rows, item, k);
        rows := rows[k := rows[k].(title := title, finished := Some(now), outcome := outcome)];
      }
      assert rows == CloseAll(old(rows), item, Some(title), now, outcome);
      if retention > 0 {
        rows := Prune(rows, now - retention);
      }
    }
  }
}
