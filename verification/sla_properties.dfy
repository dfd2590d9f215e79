/** Properties of the SLA evaluator that relate several evaluations. */
module SlaProperties {
  import opened Wrappers
  import opened Sla

  /** Evaluating again at the same instant changes nothing and reports no
      change. */
  lemma EvaluateIdempotent(r: SlaRecord, anchor: Option<int>, now: int, threshold: int)
    ensures var first := Evaluate(r, anchor, now, threshold).record;
            Evaluate(first, anchor, now, threshold) == Evaluation(first, false)
  {
  }

  /** Once a due time exists, the target no longer matters: changing
      `sla_target` alone changes neither the derived fields nor the change
      flag. */
  lemma ExistingDueIgnoresTarget(r: SlaRecord, target: Option<int>, anchor: Option<int>, now: int, threshold: int)
    requires r.due.Some?
    ensures var ev := Evaluate(r, anchor, now, threshold);
            var ev' := Evaluate(r.(target := target), anchor, now, threshold);
            ev'.record == ev.record.(target := target) && ev'.changed == ev.changed
  {
  }

  /** A zero-length target is no SLA at all. */
  lemma ZeroTargetIsNoTarget(r: SlaRecord, anchor: Option<int>, now: int, threshold: int)
    ensures var zero := Evaluate(r.(target := Some(0)), anchor, now, threshold);
            var none := Evaluate(r.(target := None), anchor, now, threshold);
            zero.record == none.record.(target := Some(0)) && zero.changed == none.changed
  {
  }

  /** With no target and no due time the record is on track and any
      recorded breach is forgotten, whatever the clock says. */
  lemma NoTargetClearsBreach(r: SlaRecord, anchor: Option<int>, now: int, threshold: int)
    requires !HasTarget(r.target) && r.due.None?
    ensures var ev := Evaluate(r, anchor, now, threshold);
            ev.record == r.(status := OnTrack, breached := false, breachedAt := None)
            && (ev.changed <==> r.status != OnTrack || r.breached || r.breachedAt.Some?)
  {
  }

  /** Between two evaluations with a clock that does not go back, the status
      never moves backwards and an overdue entity stays overdue with its
      first breach time. */
  lemma StepNeverRegresses(r: SlaRecord, anchor: Option<int>, now: int, later: int, threshold: int)
    requires Settled(r, now, threshold)
    requires now <= later
    ensures var next := Evaluate(r, anchor, later, threshold).record;
            && next.due == r.due
            && Rank(r.status) <= Rank(next.status)
            && (r.status == Overdue ==> next.status == Overdue && next.breached && next.breachedAt == r.breachedAt)
  {
  }

  /** Each record of a run is the evaluation of the one before it. */
  lemma {:induction false} RunStep(r: SlaRecord, anchor: Option<int>, nows: seq<int>, threshold: int, k: nat)
    requires k < |nows|
    ensures var t := Run(r, anchor, nows, threshold);
            t[k] == Evaluate(if k == 0 then r else t[k - 1], anchor, nows[k], threshold).record
    decreases k
  {
    if k > 0 {
      var first := Evaluate(r, anchor, nows[0], threshold).record;
      RunStep(first, anchor, nows[1..], threshold, k - 1);
    }
  }

  /** Over a run with a non-decreasing clock the status only moves
      on track, due soon, overdue; once overdue, the breach flag and the
      first breach time stay as they were first set. */
  lemma {:induction false} RunNeverRegresses(r: SlaRecord, anchor: Option<int>, nows: seq<int>, threshold: int, i: nat, j: nat)
    requires NonDecreasing(nows)
    requires i <= j < |nows|
    ensures var t := Run(r, anchor, nows, threshold);
            && t[j].due == t[i].due
            && Rank(t[i].status) <= Rank(t[j].status)
            && (t[i].status == Overdue ==> t[j].status == Overdue && t[j].breached && t[j].breachedAt == t[i].breachedAt)
    decreases j - i
  {
    if i < j {
      var t := Run(r, anchor, nows, threshold);
      RunNeverRegresses(r, anchor, nows, threshold, i, j - 1);
      RunStep(r, anchor, nows, threshold, j - 1);
      RunStep(r, anchor, nows, threshold, j);
      StepNeverRegresses(t[j - 1], anchor, nows[j - 1], nows[j], threshold);
    } else {
      RunStep(r, anchor, nows, threshold, i);
    }
  }

  /** The worked example of a three-day target with the default 24 hour
      window, counted from a creation instant of zero. */
  lemma ThreeDayScenario()
    ensures var r0 := SlaRecord(Some(3 * Day), None, OnTrack, false, None);
            var e1 := Evaluate(r0, Some(0), 12 * Hour, DefaultDueSoonThreshold);
            var e2 := Evaluate(e1.record, Some(0), 2 * Day + 6 * Hour, DefaultDueSoonThreshold);
            var e3 := Evaluate(e2.record, Some(0), 3 * Day + Hour, DefaultDueSoonThreshold);
            var e4 := Evaluate(e3.record, Some(0), 4 * Day, DefaultDueSoonThreshold);
            && e1.record.due == Some(3 * Day) && e1.record.status == OnTrack && e1.changed
            && e2.record.status == DueSoon && !e2.record.breached && e2.changed
            && e3.record.status == Overdue && e3.record.breached
            && e3.record.breachedAt == Some(3 * Day + Hour) && e3.changed
            && e4.record == e3.record && !e4.changed
  {
  }

  /** The due-soon window is closed at both ends: exactly at the due time
      and exactly one threshold before it. */
  lemma DueSoonWindowInclusive(r: SlaRecord, anchor: Option<int>, threshold: int)
    requires r.due.Some? && threshold >= 0
    ensures Evaluate(r, anchor, r.due.value, threshold).record.status == DueSoon
    ensures Evaluate(r, anchor, r.due.value - threshold, threshold).record.status == DueSoon
    ensures Evaluate(r, anchor, r.due.value + 1, threshold).record.status == Overdue
    ensures Evaluate(r, anchor, r.due.value - threshold - 1, threshold).record.status == OnTrack
  {
  }

  /** Falling back inside the due-soon window clears the breach flag but
      not the breach time, so a later breach stamps a new time: the first
      breach time is kept only while the due time and the clock move
      consistently. */
  lemma BreachStampNotCleared()
    ensures var breached := SlaRecord(Some(Day), Some(Day), Overdue, true, Some(2 * Day));
            var moved := Evaluate(breached.(due := Some(3 * Day)), None, 2 * Day + Hour, DefaultDueSoonThreshold).record;
            var again := Evaluate(moved, None, 4 * Day, DefaultDueSoonThreshold).record;
            && moved.status == DueSoon && !moved.breached && moved.breachedAt == Some(2 * Day)
            && again.status == Overdue && again.breachedAt == Some(4 * Day)
  {
  }
}
