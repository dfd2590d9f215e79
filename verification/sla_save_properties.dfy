/** Properties of the two-phase saves: what ends up stored, which columns
    the second write may touch, and how the request bridge interacts with a
    due time that already exists. */
module SlaSaveProperties {
  import opened Wrappers
  import opened Sla
  import opened SlaSave
  import SlaProperties

  /** The guard holds exactly when `update_fields` is given and names
      `sla_due`; the non-emptiness test is implied. */
  lemma IsSlaUpdateExactly(updateFields: Option<seq<string>>)
    ensures IsSlaUpdate(updateFields) <==> updateFields.Some? && "sla_due" in updateFields.value
  {
  }

  /** The SLA-only write changes the four SLA columns and nothing else:
      the stored stamp and target are left as they were. */
  lemma SlaWriteTouchesOnlySlaColumns(owner: Owner, row: Tracked, snapshot: Tracked)
    ensures var row' := ApplyWrite(owner, row, Write(Some(SlaUpdateFields), snapshot));
            && row'.stamp == row.stamp
            && row'.sla == snapshot.sla.(target := row.sla.target)
  {
    assert StampColumn(owner) !in SlaUpdateFields;
    assert "sla_target" !in SlaUpdateFields;
    assert SlaUpdateFields[0] == "sla_due" && SlaUpdateFields[1] == "sla_status";
    assert SlaUpdateFields[2] == "sla_breached" && SlaUpdateFields[3] == "sla_breached_at";
  }

  /** A full save that completes leaves the stored row equal to the entity
      in memory, whether or not the second write was needed. */
  lemma FullSavePersistsEntity(owner: Owner, row: Tracked, e: Tracked, saveClock: int, evalClock: int, fault: Fault)
    requires fault != EveryCallRaises
    ensures var res := SaveTracked(owner, e, None, saveClock, evalClock, fault);
            Replay(owner, row, res.writes) == res.entity
  {
    var res := SaveTracked(owner, e, None, saveClock, evalClock, fault);
    var afterFirst := ApplyWrite(owner, row, res.writes[0]);
    assert afterFirst == BaseSave(e, saveClock);
    if |res.writes| == 2 {
      SlaWriteTouchesOnlySlaColumns(owner, afterFirst, res.entity);
      var afterSecond := ApplyWrite(owner, afterFirst, res.writes[1]);
      assert afterSecond == res.entity;
      assert res.writes[1..][1..] == [];
      assert Replay(owner, afterFirst, res.writes[1..]) == Replay(owner, afterSecond, []);
    } else {
      assert res.writes[1..] == [];
      assert res.entity == afterFirst;
    }
  }

  /** A new entity's due time is anchored on the stamp its first write
      received, never on the evaluation's own clock. */
  lemma NewEntityAnchoredOnStamp(owner: Owner, e: Tracked, fields: Option<seq<string>>, saveClock: int, evalClock: int, fault: Fault)
    requires e.stamp.None? && e.sla.due.None? && HasTarget(e.sla.target)
    requires fault != EveryCallRaises
    ensures SaveTracked(owner, e, fields, saveClock, evalClock, fault).entity.sla.due == Some(saveClock + e.sla.target.value)
  {
  }

  /** Saving again at the same instant issues only the caller's write. */
  lemma ResaveWritesOnce(owner: Owner, e: Tracked, saveClock: int, evalClock: int, fault: Fault)
    requires fault != EveryCallRaises
    ensures var once := SaveTracked(owner, e, None, saveClock, evalClock, fault).entity;
            SaveTracked(owner, once, None, saveClock, evalClock, NoFault).writes == [Write(None, once)]
  {
    var once := SaveTracked(owner, e, None, saveClock, evalClock, fault).entity;
    SlaProperties.EvaluateIdempotent(BaseSave(e, saveClock).sla, EvaluationAnchor(owner, once.stamp), evalClock, DefaultDueSoonThreshold);
  }

  /** Changing `duration_type` once a due time exists changes the target but
      never the due time, on every path through `Request.save`. */
  lemma DurationChangeKeepsDue(req: Request, durationType: string, updateFields: Option<seq<string>>, saveClock: int, evalClock: int, fault: Fault)
    requires req.core.sla.due.Some?
    ensures var res := SaveRequest(req.(durationType := durationType), updateFields, saveClock, evalClock, fault);
            res.entity.sla.due == req.core.sla.due && res.entity.sla.target == Some(TargetFor(durationType))
  {
  }

  /** The Python comparison that decides the branch: the target is three
      days exactly for `"short_term"`. */
  lemma RequestTargets()
    ensures TargetFor("short_term") == 3 * 24 * 3600 * 1_000_000
    ensures TargetFor("long_term") == 10 * 24 * 3600 * 1_000_000
    ensures TargetFor("") == TargetFor("long_term")
  {
  }
}
