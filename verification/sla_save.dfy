/** The save drivers of the entities that carry SLA fields: `Project.save`
    and `Task.save` (one shared two-phase save) and `Request.save` (the
    duration-type bridge, and a guard that skips the evaluation for a save
    whose `update_fields` names `sla_due`).

    A save is described by the writes it issues: each write is one call of
    the framework's base `save`, with the `update_fields` it passed (`None`
    for every column) and the in-memory entity at that moment. */
module SlaSave {
  import opened Wrappers
  import opened Sla

  datatype Owner = ProjectOwner | TaskOwner | RequestOwner

  /** The column filled automatically when the entity is first stored. */
  function StampColumn(owner: Owner): string {
    if owner == RequestOwner then "timestamp" else "created_at"
  }

  /** The instant the owner's SLA mixin anchors the due time on. */
  function EvaluationAnchor(owner: Owner, stamp: Option<int>): Option<int> {
    // a request has a `timestamp` and no `created_at`
    if owner == RequestOwner then RequestAnchor(stamp, None) else stamp
  }

  /** The part of an entity the save drivers touch. */
  datatype Tracked = Tracked(stamp: Option<int>, sla: SlaRecord)

  datatype Write = Write(fields: Option<seq<string>>, snapshot: Tracked)

  /** How the SLA evaluation behaves under the `TypeError` fallback. Over
      integer time the evaluator cannot raise; the fault stands for the
      causes outside this model (for instance naive and aware datetimes
      mixed in one subtraction). */
  datatype Fault = NoFault | FirstCallRaises | EveryCallRaises

  datatype SaveResult = SaveResult(entity: Tracked, writes: seq<Write>, raised: bool)

  /** The columns of the SLA-only second write. */
  const SlaUpdateFields: seq<string> := ["sla_due", "sla_status", "sla_breached", "sla_breached_at"]

  /** The framework's base `save`: a new entity (one without its stamp)
      gets the save instant as its stamp. */
  function BaseSave(e: Tracked, clock: int): (saved: Tracked)
    ensures saved.stamp.Some?
    ensures e.stamp.Some? ==> saved == e
    ensures saved.sla == e.sla
  {
    if e.stamp.None? then e.(stamp := Some(clock)) else e
  }

  /** The save shared by `Project.save` and `Task.save`: store the entity as
      the caller asked, evaluate the SLA, and store the four SLA columns
      again only when the evaluation reports a change. */
  function SaveTracked(owner: Owner, e: Tracked, fields: Option<seq<string>>, saveClock: int, evalClock: int, fault: Fault): (res: SaveResult)
    // the caller's write comes first, and the evaluation sees its stamp
    ensures |res.writes| >= 1 && res.writes[0] == Write(fields, BaseSave(e, saveClock))
    ensures res.entity.stamp == BaseSave(e, saveClock).stamp
    ensures res.raised <==> fault == EveryCallRaises
    ensures res.raised ==> res.entity == BaseSave(e, saveClock) && |res.writes| == 1
    ensures !res.raised ==>
      res.entity.sla == Evaluate(e.sla, EvaluationAnchor(owner, res.entity.stamp), evalClock, DefaultDueSoonThreshold).record
    // a second write happens exactly when the SLA fields changed or the
    // first evaluation raised, and it names only the SLA columns
    ensures !res.raised ==>
      (|res.writes| == 2 <==> res.entity.sla != e.sla || fault == FirstCallRaises)
    ensures |res.writes| <= 2
    ensures |res.writes| == 2 ==> res.writes[1] == Write(Some(SlaUpdateFields), res.entity)
  {
    var saved := BaseSave(e, saveClock);
    var first := Write(fields, saved);
    if fault == EveryCallRaises then
      SaveResult(saved, [first], true)
    else
      var ev := Evaluate(saved.sla, EvaluationAnchor(owner, saved.stamp), evalClock, DefaultDueSoonThreshold);
      var changed := ev.changed || fault == FirstCallRaises;
      var after := saved.(sla := ev.record);
      SaveResult(after, if changed then [first, Write(Some(SlaUpdateFields), after)] else [first], false)
  }

  const ShortTerm: string := "short_term"
  const ShortTermTarget: int := 3 * Day
  const LongTermTarget: int := 10 * Day

  /** The bridge from `duration_type` to `sla_target`: three days for a
      short-term request, ten days for anything else. */
  function TargetFor(durationType: string): (target: int)
    ensures durationType == ShortTerm ==> target == ShortTermTarget
    ensures durationType != ShortTerm ==> target == LongTermTarget
    ensures target > 0
  {
    if durationType == ShortTerm then ShortTermTarget else LongTermTarget
  }

  /** The guard of `Request.save`: `update_fields` was passed, is non-empty
      and names `sla_due`. */
  predicate IsSlaUpdate(updateFields: Option<seq<string>>) {
    updateFields.Some? && |updateFields.value| > 0 && "sla_due" in updateFields.value
  }

  datatype Request = Request(durationType: string, core: Tracked)

  /** `Request.save`. */
  function SaveRequest(req: Request, updateFields: Option<seq<string>>, saveClock: int, evalClock: int, fault: Fault): (res: SaveResult)
    // every save, the SLA-only one included, re-derives the target
    ensures res.entity.sla.target == Some(TargetFor(req.durationType))
    // an SLA-only save is one plain write with no evaluation
    ensures IsSlaUpdate(updateFields) ==>
      && !res.raised
      && res.entity == BaseSave(req.core, saveClock).(sla := req.core.sla.(target := Some(TargetFor(req.durationType))))
      && res.writes == [Write(updateFields, res.entity)]
    ensures !IsSlaUpdate(updateFields) ==>
      res == SaveTracked(RequestOwner, req.core.(sla := req.core.sla.(target := Some(TargetFor(req.durationType)))),
                         updateFields, saveClock, evalClock, fault)
  {
    var bridged := req.core.(sla := req.core.sla.(target := Some(TargetFor(req.durationType))));
    if IsSlaUpdate(updateFields) then
      var saved := BaseSave(bridged, saveClock);
      SaveResult(saved, [Write(updateFields, saved)], false)
    else
      SaveTracked(RequestOwner, bridged, updateFields, saveClock, evalClock, fault)
  }

  /** The stored row after one write: every column, or only the named ones. */
  function ApplyWrite(owner: Owner, row: Tracked, w: Write): (row': Tracked)
    ensures w.fields.None? ==> row' == w.snapshot
    ensures w.fields.Some? ==>
      && row'.stamp == (if StampColumn(owner) in w.fields.value then w.snapshot.stamp else row.stamp)
      && row'.sla.target == (if "sla_target" in w.fields.value then w.snapshot.sla.target else row.sla.target)
      && row'.sla.due == (if "sla_due" in w.fields.value then w.snapshot.sla.due else row.sla.due)
      && row'.sla.status == (if "sla_status" in w.fields.value then w.snapshot.sla.status else row.sla.status)
      && row'.sla.breached == (if "sla_breached" in w.fields.value then w.snapshot.sla.breached else row.sla.breached)
      && row'.sla.breachedAt == (if "sla_breached_at" in w.fields.value then w.snapshot.sla.breachedAt else row.sla.breachedAt)
  {
    match w.fields
    case None => w.snapshot
    case Some(fs) =>
      var s := w.snapshot;
      Tracked(
        if StampColumn(owner) in fs then s.stamp else row.stamp,
        SlaRecord(
          if "sla_target" in fs then s.sla.target else row.sla.target,
          if "sla_due" in fs then s.sla.due else row.sla.due,
          if "sla_status" in fs then s.sla.status else row.sla.status,
          if "sla_breached" in fs then s.sla.breached else row.sla.breached,
          if "sla_breached_at" in fs then s.sla.breachedAt else row.sla.breachedAt))
  }

  /** The stored row after a sequence of writes. */
  function Replay(owner: Owner, row: Tracked, writes: seq<Write>): Tracked
    decreases |writes|
  {
    if writes == [] then row else Replay(owner, ApplyWrite(owner, row, writes[0]), writes[1..])
  }
}
