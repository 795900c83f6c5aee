/** The health endpoint: replication lag, initial-import status and whether the
    stored checkpoint is still inside the retained oplog. */
module Monitoring {
  import opened Base
  import opened Oplog
  import opened Checkpoints

  /** `Lag`: the checkpoint as a date (milliseconds), the time of the report and
      the lag, -1 when there is no checkpoint. */
  datatype Lag = Lag(lastCheckpoint: Option<Int64>, now: Int64, lagLength: Int64)

  /** `new Lag()`: no checkpoint stored. */
  function NoCheckpointLag(now: Int64): (l: Lag)
    ensures l.lastCheckpoint == None && l.lagLength == -1 && l.now == now
  {
    Lag(None, now, -1)
  }

  /** `new Lag(checkpoint)`: the checkpoint's seconds are widened to a `long` and
      scaled to milliseconds for `lastCheckpoint`, but `lagLength` subtracts the
      raw seconds from the current milliseconds. */
  function CheckpointLag(checkpoint: Timestamp, now: Int64): (l: Lag)
    ensures l.lastCheckpoint.Some? && l.now == now
    ensures l.lastCheckpoint.value % 1000 == 0
  {
    Lag(Some(SignedTime(checkpoint) * 1000), now, Wrap64(now - SignedTime(checkpoint)))
  }

  /** With a checkpoint before 2038 and a sane clock, `lastCheckpoint` is the
      checkpoint in milliseconds, independent of the clock, while `lagLength`
      is off from the millisecond lag by 999 times the checkpoint's seconds. */
  lemma LagMixesUnits(checkpoint: Timestamp, now: Int64, later: Int64)
    requires checkpoint.time < 0x8000_0000
    requires now >= Int64Min + 0x8000_0000
    ensures CheckpointLag(checkpoint, now).lastCheckpoint == Some(checkpoint.time * 1000)
    ensures CheckpointLag(checkpoint, now).lastCheckpoint == CheckpointLag(checkpoint, later).lastCheckpoint
    ensures CheckpointLag(checkpoint, now).lagLength == now - checkpoint.time
    ensures CheckpointLag(checkpoint, now).lagLength
              == (now - CheckpointLag(checkpoint, now).lastCheckpoint.value) + 999 * checkpoint.time
  {
  }

  /** `checkIfCheckpointIsInOpLog`: the oldest retained entry (the first in
      natural order) is not after the checkpoint. */
  function CheckpointInOplog(oplog: seq<OplogEntry>, checkpoint: Timestamp): (r: bool)
    ensures r <==> oplog != [] && oplog[0].ts.Some? && NotAfter(oplog[0].ts.value, checkpoint)
  {
    if oplog == [] then false
    else match oplog[0].ts
      case None => false
      case Some(oldest) => NotAfter(oldest, checkpoint)
  }

  /** The oplog in natural order carries increasing timestamps. */
  predicate Ordered(oplog: seq<OplogEntry>)
  {
    && (forall i :: 0 <= i < |oplog| ==> oplog[i].ts.Some?)
    && (forall i, j :: 0 <= i < j < |oplog| && oplog[i].ts.Some? && oplog[j].ts.Some? ==>
          NotAfter(oplog[i].ts.value, oplog[j].ts.value))
  }

  /** On an ordered oplog the health flag and the streamer's stale test agree:
      a checkpoint the streamer can resume from is reported reachable, and one
      reported unreachable makes the streamer rescan from the start. */
  lemma ReachabilityMatchesResume(oplog: seq<OplogEntry>, checkpoint: Timestamp, namespaces: set<string>)
    requires Ordered(oplog)
    ensures InLog(oplog, checkpoint) ==> CheckpointInOplog(oplog, checkpoint)
    ensures !CheckpointInOplog(oplog, checkpoint) ==>
              OplogDocuments(oplog, namespaces, Some(checkpoint)) == OplogDocuments(oplog, namespaces, None)
  {
    if InLog(oplog, checkpoint) {
      var k :| 0 <= k < |oplog| && oplog[k].ts == Some(checkpoint);
      if k > 0 {
        assert NotAfter(oplog[0].ts.value, oplog[k].ts.value);
      }
    }
    if !CheckpointInOplog(oplog, checkpoint) {
      StaleCheckpointRescans(oplog, namespaces, checkpoint);
    }
  }

  datatype Status = Up

  /** What the health endpoint reports. */
  datatype HealthReport = HealthReport(status: Status, lag: Lag, initial: InitialImport, checkpoint: bool)

  /** `health`: the status is always UP; the lag and the reachability flag
      follow the stored checkpoint; reading the import status fails without a
      record. */
  function Health(store: CheckpointManager, oplog: seq<OplogEntry>, now: Int64): (r: Result<HealthReport>)
    reads store
    ensures r.Err? <==> store.identifier !in store.records
    ensures r.Ok? ==> r.value.status == Up && store.LastImportStatus() == Ok(r.value.initial)
    ensures r.Ok? ==> (r.value.checkpoint <==> store.GetLastKnown().Some? && CheckpointInOplog(oplog, store.GetLastKnown().value))
    ensures r.Ok? && store.GetLastKnown().None? ==> r.value.lag == NoCheckpointLag(now)
    ensures r.Ok? && store.GetLastKnown().Some? ==> r.value.lag == CheckpointLag(store.GetLastKnown().value, now)
  {
    var lastKnown := store.GetLastKnown();
    var lag := match lastKnown
      case Some(t) => CheckpointLag(t, now)
      case None => NoCheckpointLag(now);
    var checkpointUp := match lastKnown
      case Some(t) => CheckpointInOplog(oplog, t)
      case None => false;
    match store.LastImportStatus()
    case Err(f) => Err(f)
    case Ok(initial) => Ok(HealthReport(Up, lag, initial, checkpointUp))
  }
}
