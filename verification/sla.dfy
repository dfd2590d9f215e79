/** The SLA evaluator shared by requests, projects and tasks: it materialises
    a due time once, classifies the entity as on track, due soon or overdue,
    raises a breach flag and stamps the breach time when the flag goes from
    false to true (due soon, on track and no due time clear the flag), and
    reports whether any persisted SLA field changed.

    Instants and durations are integers counting microseconds, the
    resolution of Python's `datetime`; the current time is a parameter. */
module Sla {
  import opened Wrappers

  const Second: int := 1_000_000
  const Hour: int := 3600 * Second
  const Day: int := 24 * Hour

  /** The default `due_soon_threshold` of `update_sla_status`. */
  const DefaultDueSoonThreshold: int := 24 * Hour

  datatype SlaStatus = OnTrack | DueSoon | Overdue

  /** Position of a status along its normal progression. */
  function Rank(s: SlaStatus): nat {
    match s
    case OnTrack => 0
    case DueSoon => 1
    case Overdue => 2
  }

  /** The SLA fields an owning entity stores. */
  datatype SlaRecord = SlaRecord(
    target: Option<int>,      // sla_target, a duration
    due: Option<int>,         // sla_due, an instant
    status: SlaStatus,        // sla_status
    breached: bool,           // sla_breached
    breachedAt: Option<int>   // sla_breached_at, an instant
  )

  /** Python truthiness of `sla_target`: a zero `timedelta` is falsy and
      behaves as "no SLA"; a negative one is truthy. */
  predicate HasTarget(target: Option<int>) {
    target.Some? && target.value != 0
  }

  /** The instant the request mixin anchors the due time on: `timestamp`
      when set, otherwise `created_at`; `None` leaves the choice to the
      current time. The project mixin reads `created_at` alone, which is
      the same as passing no `timestamp`. */
  function RequestAnchor(timestamp: Option<int>, createdAt: Option<int>): (a: Option<int>)
    ensures a.Some? <==> timestamp.Some? || createdAt.Some?
    ensures timestamp.Some? ==> a == timestamp
    ensures timestamp.None? ==> a == createdAt
  {
    if timestamp.Some? then timestamp else createdAt
  }

  /** `compute_sla_due`: the anchor (or, lacking one, `now`) plus the
      target, or nothing when there is no target. */
  function ComputeDue(target: Option<int>, anchor: Option<int>, now: int): (due: Option<int>)
    ensures due.None? <==> !HasTarget(target)
    ensures due.Some? ==> due.value - target.value == (if anchor.Some? then anchor.value else now)
  {
    if HasTarget(target) then
      var start := if anchor.Some? then anchor.value else now;
      Some(start + target.value)
    else
      None
  }

  /** The status an entity with due time `due` has at `now`, stated as the
      windows of time around `due`. */
  function StatusAt(due: int, now: int, threshold: int): (s: SlaStatus)
    ensures s == Overdue <==> now > due
    ensures s == DueSoon <==> due - threshold <= now <= due
    ensures s == OnTrack <==> now <= due && now < due - threshold
  {
    if now > due then Overdue
    else if now >= due - threshold then DueSoon
    else OnTrack
  }

  /** A record as an evaluation at `now` leaves it: a due time exists
      exactly when a target does, the status is the one the clock
      dictates, and the breach flag is raised exactly when overdue. */
  predicate Settled(r: SlaRecord, now: int, threshold: int) {
    && (r.due.None? ==> !HasTarget(r.target) && r.status == OnTrack && r.breachedAt.None?)
    && (r.due.Some? ==> r.status == StatusAt(r.due.value, now, threshold))
    && (r.breached <==> r.status == Overdue)
  }

  datatype Evaluation = Evaluation(record: SlaRecord, changed: bool)

  /** `update_sla_status`: the updated record and whether any of
      status, due time, breach flag or breach time changed. */
  function Evaluate(r: SlaRecord, anchor: Option<int>, now: int, threshold: int): (ev: Evaluation)
    // the target is an input only
    ensures ev.record.target == r.target
    // a due time is materialised once and then never recomputed
    ensures r.due.Some? ==> ev.record.due == r.due
    ensures r.due.None? ==> ev.record.due == ComputeDue(r.target, anchor, now)
    // the status follows the clock; without a due time every trace of a
    // breach is cleared
    ensures Settled(ev.record, now, threshold)
    // the first breach is stamped; a later one keeps the original stamp
    ensures ev.record.status == Overdue && !r.breached ==> ev.record.breachedAt == Some(now)
    ensures ev.record.status == Overdue && r.breached ==> ev.record.breachedAt == r.breachedAt
    // due soon and on track clear the flag but keep the stamp
    ensures ev.record.due.Some? && ev.record.status != Overdue ==> ev.record.breachedAt == r.breachedAt
    ensures ev.changed <==> ev.record != r
  {
    var due := if HasTarget(r.target) && r.due.None? then ComputeDue(r.target, anchor, now) else r.due;
    var next :=
      if due.None? then
        r.(due := due, status := OnTrack, breached := false, breachedAt := None)
      else
        var timeLeft := due.value - now;
        if timeLeft < 0 then
          if !r.breached then r.(due := due, status := Overdue, breached := true, breachedAt := Some(now))
          else r.(due := due, status := Overdue)
        else if timeLeft <= threshold then
          r.(due := due, status := DueSoon, breached := false)
        else
          r.(due := due, status := OnTrack, breached := false);
    var changed :=
      || next.status != r.status
      || next.due != r.due
      || next.breached != r.breached
      || next.breachedAt != r.breachedAt;
    Evaluation(next, changed)
  }

  /** The records left by evaluating `r` at each instant of `nows` in turn. */
  function Run(r: SlaRecord, anchor: Option<int>, nows: seq<int>, threshold: int): (t: seq<SlaRecord>)
    ensures |t| == |nows|
    decreases |nows|
  {
    if nows == [] then []
    else
      var first := Evaluate(r, anchor, nows[0], threshold).record;
      [first] + Run(first, anchor, nows[1..], threshold)
  }

  predicate NonDecreasing(nows: seq<int>) {
    forall i, j :: 0 <= i <= j < |nows| ==> nows[i] <= nows[j]
  }
}
