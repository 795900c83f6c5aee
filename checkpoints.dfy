/** The checkpoint store: one record per replication identifier in the
    administrative `mongooplog` collection, holding the last processed oplog
    timestamp and the bookkeeping of the initial import. */
module Checkpoints {
  import opened Base
  import opened Oplog

  /** The fields of a `mongooplog` document; an absent or null field is `None`.
      Dates are Java milliseconds. */
  datatype Record = Record(
    ts: Option<Timestamp>,
    importState: Option<string>,
    start: Option<Int64>,
    end: Option<Int64>,
    length: Option<real>)

  /** The document an upsert starts from when no record exists yet. */
  const NoRecord: Record := Record(None, None, None, None, None)

  const Running: string := "running"
  const Done: string := "done"

  const NoOplogMessage: string := "Unable to retrieve last oplog. Maybe you are not running your mongodb in a replica set"

  /** What `lastImportStatus` reports. */
  datatype InitialImport = InitialImport(
    start: Option<Int64>,
    end: Option<Int64>,
    status: Option<string>,
    lengthInMinutes: Option<real>)

  /** The duration written by `storeImportEnd`: milliseconds to minutes. */
  function Minutes(millis: int): (m: real)
    ensures millis >= 0 ==> m >= 0.0
    ensures m * 60000.0 == millis as real
  {
    millis as real / 1000.0 / 60.0
  }

  class CheckpointManager {
    /** The `_id` of this streamer's record. */
    const identifier: string
    /** The `mongooplog` collection, keyed by `_id`. */
    var records: map<string, Record>

    constructor (identifier: string, records: map<string, Record>)
      ensures this.identifier == identifier && this.records == records
    {
      this.identifier := identifier;
      this.records := records;
    }

    /** This identifier's record, or the empty document an upsert would start from. */
    function Current(): (r: Record)
      reads this
      ensures identifier !in records ==> r == NoRecord
      ensures identifier in records ==> r == records[identifier]
    {
      if identifier in records then records[identifier] else NoRecord
    }

    /** `getLastKnown`: the stored checkpoint, none when there is no record or
        its `ts` is null. */
    function GetLastKnown(): (r: Option<Timestamp>)
      reads this
      ensures r.None? <==> identifier !in records || records[identifier].ts.None?
      ensures r.Some? ==> identifier in records && r == records[identifier].ts
    {
      Current().ts
    }

    /** `lastImportStatus`: the stored bookkeeping, unchanged; reading a missing
        record dereferences null. */
    function LastImportStatus(): (r: Result<InitialImport>)
      reads this
      ensures r.Err? <==> identifier !in records
      ensures r.Err? ==> r.fault == NullPointer
      ensures r.Ok? ==> var rec := records[identifier];
                        r.value == InitialImport(rec.start, rec.end, rec.importState, rec.length)
    {
      if identifier !in records then Err(NullPointer)
      else
        var rec := records[identifier];
        Ok(InitialImport(rec.start, rec.end, rec.importState, rec.length))
    }

    /** `getLastOplog`: the `ts` of the newest oplog entry (natural order); an
        empty oplog means the database is not a replica set. */
    function GetLastOplog(oplog: seq<OplogEntry>): (r: Result<Option<Timestamp>>)
      ensures r.Err? <==> oplog == []
      ensures r.Err? ==> r.fault == IllegalState(NoOplogMessage)
      ensures r.Ok? ==> r.value == oplog[|oplog| - 1].ts
    {
      if oplog == [] then Err(IllegalState(NoOplogMessage)) else Ok(oplog[|oplog| - 1].ts)
    }

    /** `keep`: upserts only the `ts` field of this identifier's record. */
    method Keep(t: Option<Timestamp>)
      modifies this
      ensures records == old(records)[identifier := old(Current()).(ts := t)]
      ensures GetLastKnown() == t
    {
      records := records[identifier := Current().(ts := t)];
    }

    /** `storeImportStart`: marks the import running, stamps its start and clears
        the checkpoint. */
    method StoreImportStart(now: Int64)
      modifies this
      ensures records == old(records)[identifier := old(Current()).(importState := Some(Running), start := Some(now), ts := None)]
      ensures GetLastKnown() == None
    {
      records := records[identifier := Current().(importState := Some(Running), start := Some(now), ts := None)];
    }

    /** `storeImportEnd`: marks the import done, stamps its end and records its
        duration in minutes; the checkpoint is left alone. */
    method StoreImportEnd(lengthMillis: Int64, now: Int64)
      modifies this
      ensures records == old(records)[identifier := old(Current()).(importState := Some(Done), end := Some(now), length := Some(Minutes(lengthMillis)))]
      ensures GetLastKnown() == old(GetLastKnown())
    {
      records := records[identifier := Current().(importState := Some(Done), end := Some(now), length := Some(Minutes(lengthMillis)))];
    }
  }
}
