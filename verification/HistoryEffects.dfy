/** What each record does to the rows of the history, and what title a listener then sees. */
module HistoryEffects {
  import opened Wrappers
  import opened Positions
  import opened Text
  import opened History

  /** A start interrupts what was open of the item and opens a segment without a title. */
  lemma StartInterrupts(rows: seq<Segment>, r: Record, at: int, fold: Folding, retention: int)
    requires r.Started?
    ensures var after := Recorded(rows, r, at, fold, retention);
      && |after| == |rows| + 1
      && after[|rows|] == Segment(r.id, r.item, r.url, r.submitter, "", at, None, Playing)
      && forall i :: 0 <= i < |rows| ==>
           after[i] == if Open(rows[i], r.item) then rows[i].(finished := Some(at), outcome := Interrupted) else rows[i]
  {
  }

  // ----- titles -----

  /** The title is not blank and differs, up to case, from that of the open segment. */
  predicate IsNews(open: Segment, raw: string, fold: Folding) {
    Trim(raw) != "" && fold(Trim(open.title)) != fold(Trim(raw))
  }

  /**
   A title that is news names the open segment, if that has no title, or splits it
   if it is five seconds old or more.  A split adds one segment with that title,
   of the same item, source and submitter, and completes the one before.
   */
  lemma TitleChangeEffect(rows: seq<Segment>, r: Record, at: int, fold: Folding, retention: int, k: nat)
    requires r.TitleChanged? && OneOpen(rows) && k < |rows| && Open(rows[k], r.item)
    ensures var after, open := Recorded(rows, r, at, fold, retention), rows[k];
      && (|after| > |rows| <==> IsNews(open, r.title, fold) && open.title != "" && at - open.started >= 5000)
      && (|after| > |rows| ==>
            && |after| == |rows| + 1
            && after[k] == open.(finished := Some(at), outcome := Completed)
            && after[|rows|] == Segment(r.id, r.item, open.url, open.submitter, Trim(r.title), at, None, Playing)
            && forall i :: 0 <= i < |rows| && i != k ==> after[i] == rows[i])
      && (|after| <= |rows| ==>
            after == if IsNews(open, r.title, fold) && open.title == "" then rows[k := open.(title := Trim(r.title))]
                     else rows)
  {
    TitleRecorded(rows, r, at, fold, retention, k);
    hide OneOpen, Trim, Recorded;
  }

  /** The rows after a title change, if row k is open. */
  lemma TitleRecorded(rows: seq<Segment>, r: Record, at: int, fold: Folding, retention: int, k: nat)
    requires r.TitleChanged? && OneOpen(rows) && k < |rows| && Open(rows[k], r.item)
    ensures var open, title := rows[k], Trim(r.title);
      Recorded(rows, r, at, fold, retention) ==
        if Names(open, title, fold) then rows[k := open.(title := title)]
        else if Rotates(open, title, at, fold) then
          rows[k := open.(finished := Some(at), outcome := Completed)]
          + [Segment(r.id, r.item, open.url, open.submitter, title, at, None, Playing)]
        else rows
  {
    UpdateOneRow(rows, r.item, k);
    hide OneOpen, Trim, OpenRows, CloseAll, NameAll, Names, Rotates;
  }

  /** Without an open segment a title is dropped. */
  lemma TitleWithoutSegment(rows: seq<Segment>, r: Record, at: int, fold: Folding, retention: int)
    requires r.TitleChanged? && forall k :: 0 <= k < |rows| ==> !Open(rows[k], r.item)
    ensures Recorded(rows, r, at, fold, retention) == rows
  {
    NoOpenRows(rows, r.item);
  }

  /**
   Afterwards the item's open segment shows a title, up to case, exactly unless the
   title is blank, or comes within five seconds of the start of a segment that
   has another.
   */
  lemma TitleIsShown(rows: seq<Segment>, r: Record, at: int, fold: Folding, retention: int, k: nat) returns (j: nat)
    requires r.TitleChanged? && OneOpen(rows) && k < |rows| && Open(rows[k], r.item)
    ensures var after, open := Recorded(rows, r, at, fold, retention), rows[k];
      && j < |after| && Open(after[j], r.item)
      && (Trim(r.title) != "" ==>
            (fold(Trim(after[j].title)) == fold(Trim(r.title)) <==>
               !(IsNews(open, r.title, fold) && open.title != "" && at - open.started < 5000)))
  {
    TitleRecorded(rows, r, at, fold, retention, k);
    TrimTwice(r.title);
    hide OneOpen, Trim, Recorded;
    j := if Rotates(rows[k], Trim(r.title), at, fold) then |rows| else k;
  }

  lemma TrimTwice(s: string)
    ensures Trim(Trim(s)) == Trim(s)
  {
    TrimIsIdempotent(s);
    TrimIsIdempotent(Trim(s));
  }

  // ----- the end -----

  /** Exactly the rows that started at the cutoff or later are kept. */
  lemma {:induction false} PruneKeepsRecentRows(rows: seq<Segment>, cutoff: int)
    ensures forall row :: multiset(Prune(rows, cutoff))[row] == if row.started >= cutoff then multiset(rows)[row] else 0
    decreases |rows|
  {
    if |rows| > 0 {
      PruneKeepsRecentRows(rows[1..], cutoff);
      assert rows == [rows[0]] + rows[1..];
    }
  }

  /** The end gives the open segment its final title, time and outcome; then old rows go, if any do. */
  lemma FinishCloses(rows: seq<Segment>, r: Record, at: int, fold: Folding, retention: int, k: nat)
    requires r.Finished? && OneOpen(rows) && k < |rows| && Open(rows[k], r.item)
    ensures var after := Recorded(rows, r, at, fold, retention);
      var closed := rows[k := rows[k].(title := r.title, finished := Some(at), outcome := r.outcome)];
      if retention <= 0 then after == closed
      else forall row ::
        multiset(after)[row] == if row.started >= at - retention then multiset(closed)[row] else 0
  {
    UpdateOneRow(rows, r.item, k);
    hide OneOpen, CloseAll, Prune;
    PruneKeepsRecentRows(CloseAll(rows, r.item, Some(r.title), at, r.outcome), at - retention);
  }
}
