/** `StreamerApplication.run`: decide whether to run the initial import, keep
    its bookkeeping in order, then watch the oplog and swallow the exception
    a shutdown raises. */
module Application {
  import opened Base
  import opened Oplog
  import opened Checkpoints
  import opened Dispatch
  import opened Tailing
  import opened Streamer

  /** The wall-clock readings of one initial load, in the order taken: the
      `new Date()` of `storeImportStart`, `System.currentTimeMillis()` before
      and after the import, and the `new Date()` of `storeImportEnd`. */
  datatype Clock = Clock(importStart: Int64, start: Int64, end: Int64, importEnd: Int64)

  /** The bookkeeping calls of an initial load. */
  datatype BootStep =
    | StoreImportStart(now: Int64)
    | RunImport
    | KeepCheckpoint(ts: Timestamp)
    | StoreImportEnd(lengthMillis: Int64, now: Int64)

  /** How `run` ends: still watching after the given passes, returned, or
      thrown. */
  datatype Exit = Watching | Finished | Failed(fault: Fault)

  /** The message of the `IllegalStateException` a closing connection pool
      raises. */
  const ShutdownMessage: string := "state should be: open"

  /** Whether `run` performs the initial load. */
  predicate PerformInitialLoad(lastKnown: Option<Timestamp>, forceReimport: bool)
  {
    lastKnown.None? || forceReimport
  }

  /** The checkpoint `run` watches from: the stored one, or, when loading, the
      `ts` of the newest oplog entry; reading it fails on an empty oplog, and
      `Optional.of` fails on a newest entry without `ts`. */
  function StartingPoint(lastKnown: Option<Timestamp>, forceReimport: bool, lastOplog: Result<Option<Timestamp>>): (r: Result<Timestamp>)
    ensures !PerformInitialLoad(lastKnown, forceReimport) ==> r == Ok(lastKnown.value)
    ensures PerformInitialLoad(lastKnown, forceReimport) && lastOplog.Err? ==> r == Err(lastOplog.fault)
    ensures PerformInitialLoad(lastKnown, forceReimport) && lastOplog == Ok(None) ==> r == Err(NullPointer)
    ensures PerformInitialLoad(lastKnown, forceReimport) && lastOplog.Ok? && lastOplog.value.Some? ==> r == Ok(lastOplog.value.value)
  {
    if !PerformInitialLoad(lastKnown, forceReimport) then Ok(lastKnown.value)
    else match lastOplog
      case Err(f) => Err(f)
      case Ok(None) => Err(NullPointer)
      case Ok(Some(t)) => Ok(t)
  }

  /** The `catch (IllegalStateException e)` around watching. */
  function ExitOf(o: WatchOutcome): (e: Exit)
    ensures e == Watching <==> o.Looping?
    ensures e.Failed? <==> o.Threw? && !(o.fault.IllegalState? && Contains(o.fault.message, ShutdownMessage))
    ensures e.Failed? ==> e.fault == o.fault
  {
    match o
    case Looping => Watching
    case Returned => Finished
    case Threw(f) => if f.IllegalState? && Contains(f.message, ShutdownMessage) then Finished else Failed(f)
  }

  /** The record the initial load leaves behind before watching starts:
      `storeImportStart`, then `keep`, then `storeImportEnd` applied in turn. */
  function Bootstrapped(r: Record, t: Timestamp, clock: Clock): (b: Record)
    ensures b.ts == Some(t) && b.importState == Some(Done)
    ensures b.start == Some(clock.importStart) && b.end == Some(clock.importEnd)
    ensures b.length == Some(Minutes(Wrap64(clock.end - clock.start)))
  {
    r.(importState := Some(Running), start := Some(clock.importStart), ts := None)
     .(ts := Some(t))
     .(importState := Some(Done), end := Some(clock.importEnd), length := Some(Minutes(Wrap64(clock.end - clock.start))))
  }

  /** Loading starts from the newest entry of the log it read, so the first
      pass never falls back to a rescan of the whole log. */
  lemma StartingPointInLog(lastKnown: Option<Timestamp>, forceReimport: bool, oplog: seq<OplogEntry>, store: CheckpointManager)
    requires PerformInitialLoad(lastKnown, forceReimport)
    requires StartingPoint(lastKnown, forceReimport, store.GetLastOplog(oplog)).Ok?
    ensures var t := StartingPoint(lastKnown, forceReimport, store.GetLastOplog(oplog)).value;
            InLog(oplog, t) && EffectiveCheckpoint(oplog, Some(t)) == Some(t)
  {
    var t := StartingPoint(lastKnown, forceReimport, store.GetLastOplog(oplog)).value;
    assert oplog[|oplog| - 1].ts == Some(t);
  }

  /** Nothing written after the newest entry read at start-up is lost: once the
      log `before` has grown by `after`, the first pass from that entry
      delivers exactly the watched entries of `after` later than it. */
  lemma NothingLostAfterImport(before: seq<OplogEntry>, after: seq<OplogEntry>, namespaces: set<string>)
    requires before != [] && before[|before| - 1].ts.Some?
    requires forall i :: 0 <= i < |before| ==> before[i].ts.Some? && NotAfter(before[i].ts.value, before[|before| - 1].ts.value)
    ensures var t := before[|before| - 1].ts.value;
            OplogDocuments(before + after, namespaces, Some(t)) == Select(after, OplogFilters(namespaces, Some(t)))
  {
    var t := before[|before| - 1].ts.value;
    var q := OplogFilters(namespaces, Some(t));
    assert (before + after)[|before| - 1] == before[|before| - 1];
    assert OplogQuery(before + after, namespaces, Some(t)) == q;
    SelectAppend(before, after, q);
    forall i | 0 <= i < |before| ensures !Matches(q, before[i]) {
      assert !Holds(q[1], before[i]);
    }
    SelectNone(before, q);
  }

  /** A query that matches no entry of a log selects nothing. */
  lemma {:induction false} SelectNone(oplog: seq<OplogEntry>, query: seq<Condition>)
    requires forall i :: 0 <= i < |oplog| ==> !Matches(query, oplog[i])
    ensures Select(oplog, query) == []
    decreases |oplog|
  {
    if oplog != [] {
      SelectNone(oplog[..|oplog| - 1], query);
    }
  }

  class StreamerApplication {
    /** `mongo.connector.forcereimport` */
    const forceReimport: bool
    const streamer: OplogStreamer
    const checkpoints: CheckpointManager
    /** The bookkeeping calls made so far, in order. */
    var steps: seq<BootStep>

    /** The streamer and the application share one checkpoint store. */
    ghost predicate Valid()
      reads this, streamer
    {
      streamer.checkpoints == checkpoints && streamer.Valid()
    }

    constructor (forceReimport: bool, streamer: OplogStreamer)
      requires streamer.Valid()
      ensures this.forceReimport == forceReimport && this.streamer == streamer
      ensures this.checkpoints == streamer.checkpoints && steps == []
      ensures Valid()
    {
      this.forceReimport := forceReimport;
      this.streamer := streamer;
      this.checkpoints := streamer.checkpoints;
      steps := [];
    }

    /** The initial load: capture the newest oplog timestamp, then
        `storeImportStart`, the import, `keep`, `storeImportEnd` with the
        import's duration. */
    method Bootstrap(oplog: seq<OplogEntry>, clock: Clock) returns (r: Result<Timestamp>)
      modifies this, checkpoints
      ensures r == StartingPoint(None, true, checkpoints.GetLastOplog(oplog))
      ensures r.Err? ==> steps == old(steps) && checkpoints.records == old(checkpoints.records)
      ensures r.Ok? ==>
                && steps == old(steps) + [StoreImportStart(clock.importStart), RunImport, KeepCheckpoint(r.value),
                                          StoreImportEnd(Wrap64(clock.end - clock.start), clock.importEnd)]
                && checkpoints.records ==
                     old(checkpoints.records)[checkpoints.identifier := Bootstrapped(old(checkpoints.Current()), r.value, clock)]
    {
      var last := checkpoints.GetLastOplog(oplog);
      if last.Err? {
        return Err(last.fault);
      }
      if last.value.None? {
        return Err(NullPointer);
      }
      var t := last.value.value;
      checkpoints.StoreImportStart(clock.importStart);
      steps := steps + [StoreImportStart(clock.importStart)];
      var start: int := clock.start;
      steps := steps + [RunImport];
      var end: int := clock.end;
      var length := Wrap64(end - start);
      checkpoints.Keep(Some(t));
      steps := steps + [KeepCheckpoint(t)];
      checkpoints.StoreImportEnd(length, clock.importEnd);
      steps := steps + [StoreImportEnd(length, clock.importEnd)];
      return Ok(t);
    }

    /** `run`: load when no checkpoint is stored or a reimport is forced, then
        watch from the checkpoint; a shutdown's `IllegalStateException` ends
        the run quietly, while a failure to read the oplog always escapes. */
    method Run(oplog: seq<OplogEntry>, clock: Clock, runs: seq<CursorRun>) returns (exit: Exit)
      requires Valid()
      modifies this, streamer, checkpoints
      ensures Valid()
      ensures var lastKnown := old(checkpoints.GetLastKnown());
              var start := StartingPoint(lastKnown, forceReimport, checkpoints.GetLastOplog(oplog));
              && (start.Err? ==>
                    && exit == Failed(start.fault)
                    && steps == old(steps)
                    && checkpoints.records == old(checkpoints.records)
                    && streamer.trace == old(streamer.trace))
              && (start.Ok? ==>
                    var w := Watch(streamer.dispatch, streamer.namespaces, Some(start.value), runs);
                    && exit == ExitOf(w.outcome)
                    && streamer.trace == old(streamer.trace) + w.effects)
      ensures var lastKnown := old(checkpoints.GetLastKnown());
              var start := StartingPoint(lastKnown, forceReimport, checkpoints.GetLastOplog(oplog));
              && (!PerformInitialLoad(lastKnown, forceReimport) ==>
                    && steps == old(steps)
                    && checkpoints.records ==
                         StoreAfter(old(checkpoints.records), checkpoints.identifier,
                                    Watch(streamer.dispatch, streamer.namespaces, lastKnown, runs).effects))
              && (PerformInitialLoad(lastKnown, forceReimport) && start.Ok? ==>
                    && steps == old(steps) + [StoreImportStart(clock.importStart), RunImport, KeepCheckpoint(start.value),
                                              StoreImportEnd(Wrap64(clock.end - clock.start), clock.importEnd)]
                    && checkpoints.records ==
                         StoreAfter(old(checkpoints.records)[checkpoints.identifier := Bootstrapped(old(checkpoints.Current()), start.value, clock)],
                                    checkpoints.identifier,
                                    Watch(streamer.dispatch, streamer.namespaces, Some(start.value), runs).effects))
    {
      var checkpoint := checkpoints.GetLastKnown();
      var checkpointPresent := checkpoint.Some?;
      var performInitialLoad := !checkpointPresent || forceReimport;
      if performInitialLoad {
        var loaded := Bootstrap(oplog, clock);
        if loaded.Err? {
          return Failed(loaded.fault);
        }
        checkpoint := Some(loaded.value);
      }
      var outcome := streamer.WatchFromCheckpoint(checkpoint, runs);
      exit := Finished;
      if outcome.Looping? {
        exit := Watching;
      } else if outcome.Threw? {
        var e := outcome.fault;
        if !(e.IllegalState? && Contains(e.message, ShutdownMessage)) {
          exit := Failed(e);
        }
      }
    }
  }
}
