/** `OplogStreamer`: the tailing loop and the per-entry dispatcher, written as
    the source writes them, step by step, and proved to make exactly the calls
    modules Dispatch and Tailing describe. */
module Streamer {
  import opened Base
  import opened Oplog
  import opened Checkpoints
  import opened Dispatch
  import opened Tailing

  /** The walk after one more table mapping, given what that mapping's step
      raised and remembered. */
  lemma WalkAdvance(env: Env, entry: OplogEntry, database: string, tms: seq<TableMapping>, i: nat,
                    f: Option<Fault>, touched: seq<string>)
    requires i < |tms| && Walk(env, entry, database, tms[..i]).fault.None?
    requires MappingStep(env, entry, database, tms[i]).Err? ==> f == Some(MappingStep(env, entry, database, tms[i]).fault)
    requires MappingStep(env, entry, database, tms[i]).Ok? ==>
               f.None? && touched == MappingStep(env, entry, database, tms[i]).value.touched
    ensures f.Some? ==> Walk(env, entry, database, tms).fault == f && Walk(env, entry, database, tms).calls == Walk(env, entry, database, tms[..i]).calls
    ensures f.None? ==>
              && MappingStep(env, entry, database, tms[i]).Ok?
              && Walk(env, entry, database, tms[..i + 1]) ==
                   Walked(Walk(env, entry, database, tms[..i]).calls + MappingStep(env, entry, database, tms[i]).value.calls,
                          Walk(env, entry, database, tms[..i]).touched + touched, None)
  {
    WalkExtend(env, entry, database, tms, i);
    if f.Some? {
      WalkFault(env, entry, database, tms);
      WalkFault(env, entry, database, tms[..i]);
    }
  }

  class OplogStreamer {
    /** The mapping configuration, the connectors, the flattening of documents
        and the source database. */
    const env: Env
    /** `mappingsManager.mappedNamespaces()` */
    const namespaces: set<string>
    /** The checkpoint store `keep` writes to. */
    const checkpoints: CheckpointManager
    /** Every connector call, cursor opening and `keep`, in the order made. */
    var trace: seq<Effect>
    /** `processOperation` as a function of the entry, for specifications. */
    ghost const dispatch: Dispatcher

    ghost predicate Valid()
    {
      Implements(env, dispatch)
    }

    constructor (env: Env, namespaces: set<string>, checkpoints: CheckpointManager)
      ensures this.env == env && this.namespaces == namespaces && this.checkpoints == checkpoints
      ensures trace == [] && Valid()
    {
      this.dispatch := e => DispatchEntry(env, e);
      this.env := env;
      this.namespaces := namespaces;
      this.checkpoints := checkpoints;
      trace := [];
    }

    /** `connectors.forEach(connector -> connector.<call>)` */
    method CallEach(call: Call)
      modifies this
      ensures trace == old(trace) + FanOut(env.connectors, call)
    {
      var k := 0;
      while k < |env.connectors|
        invariant 0 <= k <= |env.connectors|
        invariant trace == old(trace) + FanOut(env.connectors[..k], call)
      {
        assert env.connectors[..k + 1][..k] == env.connectors[..k];
        trace := trace + [ConnectorCall(env.connectors[k], call)];
        k := k + 1;
      }
      assert env.connectors[..k] == env.connectors;
    }

    /** The body of `tableMappings.forEach` for one table mapping: the calls it
        makes, the names it adds to `updatedTable`, and the exception it raises
        when an update has no `o2`. */
    method ApplyMapping(entry: OplogEntry, database: string, tm: TableMapping) returns (fault: Option<Fault>, touched: seq<string>)
      modifies this
      ensures MappingStep(env, entry, database, tm).Err? ==>
                fault == Some(MappingStep(env, entry, database, tm).fault) && trace == old(trace)
      ensures MappingStep(env, entry, database, tm).Ok? ==>
                && fault.None?
                && trace == old(trace) + MappingStep(env, entry, database, tm).value.calls
                && touched == MappingStep(env, entry, database, tm).value.touched
    {
      fault, touched := None, [];
      if entry.op == "i" {
        var doc := env.flatten(entry.o);
        if Accepts(tm.filters, doc) {
          if tm.mappingName.Some? {
            touched := [tm.mappingName.value];
            CallEach(DisableTriggers(tm.mappingName.value));
          }
          CallEach(Insert(tm.mappingName, doc, database));
        }
      } else if entry.op == "u" {
        if entry.o2.None? {
          return Some(NullPointer), [];
        }
        var current := env.source(database, tm.sourceCollection, Get(entry.o2.value, "_id"));
        if current.Some? {
          var doc := env.flatten(current.value);
          if Accepts(tm.filters, doc) {
            if tm.mappingName.Some? {
              touched := [tm.mappingName.value];
              CallEach(DisableTriggers(tm.mappingName.value));
            }
            CallEach(Update(tm.mappingName, doc, database));
          }
        }
      } else if entry.op == "d" {
        CallEach(Remove(tm.mappingName, env.flatten(entry.o), database));
      }
    }

    /** `processOperation(entry)`: the calls of every table mapping of the
        entry's collection, then the re-enabling of every remembered table;
        returns the entry's `ts`. */
    method ProcessOperation(entry: OplogEntry) returns (r: Result<Option<Timestamp>>)
      modifies this
      ensures trace == old(trace) + DispatchEntry(env, entry).calls
      ensures r == DispatchEntry(env, entry).result
    {
      var split := SplitNamespace(entry.ns);
      if split.Err? {
        return Err(split.fault);
      }
      var database, collection := split.value.0, split.value.1;
      var tableMappings: seq<TableMapping> := [];
      if database in env.databaseMappings {
        tableMappings := BySourceName(env.databaseMappings[database].tableMappings, collection);
      }
      assert tableMappings == TableMappingsOf(env, database, collection);
      DispatchEntryOfWalk(env, entry, database, collection);
      ghost var w := Walk(env, entry, database, tableMappings);
      var fault, updatedTable := ApplyMappings(entry, database, tableMappings);
      if fault.Some? {
        return Err(fault.value);
      }
      EnableTriggersOf(updatedTable);
      AppendAssoc(old(trace), w.calls, EnableAll(env.connectors, w.touched));
      return Ok(entry.ts);
    }

    /** `tableMappings.forEach(...)`: the table mappings in order, collecting
        `updatedTable`; an exception stops the walk. */
    method ApplyMappings(entry: OplogEntry, database: string, tableMappings: seq<TableMapping>)
      returns (fault: Option<Fault>, updatedTable: seq<string>)
      modifies this
      ensures fault == Walk(env, entry, database, tableMappings).fault
      ensures trace == old(trace) + Walk(env, entry, database, tableMappings).calls
      ensures fault.None? ==> updatedTable == Walk(env, entry, database, tableMappings).touched
    {
      updatedTable := [];
      var i := 0;
      while i < |tableMappings|
        invariant 0 <= i <= |tableMappings|
        invariant Walk(env, entry, database, tableMappings[..i]).fault.None?
        invariant trace == old(trace) + Walk(env, entry, database, tableMappings[..i]).calls
        invariant updatedTable == Walk(env, entry, database, tableMappings[..i]).touched
      {
        ghost var before := trace;
        ghost var prev := Walk(env, entry, database, tableMappings[..i]);
        var f, touched := ApplyMapping(entry, database, tableMappings[i]);
        WalkAdvance(env, entry, database, tableMappings, i, f, touched);
        if f.Some? {
          return f, updatedTable;
        }
        AppendAssoc(old(trace), prev.calls, MappingStep(env, entry, database, tableMappings[i]).value.calls);
        updatedTable := updatedTable + touched;
        i := i + 1;
      }
      assert tableMappings[..i] == tableMappings;
      fault := None;
    }

    /** `for (String table : updatedTable) connectors.forEach(c -> c.enableTriggers(table))` */
    method EnableTriggersOf(updatedTable: seq<string>)
      modifies this
      ensures trace == old(trace) + EnableAll(env.connectors, updatedTable)
    {
      var j := 0;
      while j < |updatedTable|
        invariant 0 <= j <= |updatedTable|
        invariant trace == old(trace) + EnableAll(env.connectors, updatedTable[..j])
      {
        assert updatedTable[..j + 1][..j] == updatedTable[..j];
        CallEach(EnableTriggers(updatedTable[j]));
        j := j + 1;
      }
      assert updatedTable[..j] == updatedTable;
    }

    /** The `try` block of one pass: open the cursor of `oplogDocuments`, then
        process each document it hands out and `keep` the returned timestamp;
        returns the exception that ends the block, if any. */
    method RunPass(checkpoint: Option<Timestamp>, run: CursorRun) returns (thrown: Option<Fault>)
      requires Valid()
      modifies this, checkpoints
      ensures trace == old(trace) + Pass(dispatch, namespaces, checkpoint, run).effects
      ensures thrown == Thrown(dispatch, namespaces, checkpoint, run)
      ensures checkpoints.records ==
                StoreAfter(old(checkpoints.records), checkpoints.identifier, Pass(dispatch, namespaces, checkpoint, run).effects)
    {
      ghost var records0 := checkpoints.records;
      var query := OplogQuery(run.oplog, namespaces, checkpoint);
      trace := trace + [OpenCursor(query)];
      var docs := Delivered(namespaces, checkpoint, run);
      ghost var session := DispatchAndKeep(dispatch, docs);
      thrown := ForEachRemaining(docs);
      AppendAssoc(old(trace), [OpenCursor(query)], session.effects);
      StoreAfterAppend(records0, checkpoints.identifier, [OpenCursor(query)], session.effects);
      assert StoreAfter(records0, checkpoints.identifier, [OpenCursor(query)]) == records0;
      if thrown.None? && run.end.Raised? {
        thrown := Some(run.end.fault);
      }
    }

    /** `documents.forEachRemaining(d -> keep(processOperation(d)))`: returns
        the exception that ended it, if any. */
    method ForEachRemaining(docs: seq<OplogEntry>) returns (thrown: Option<Fault>)
      requires Valid()
      modifies this, checkpoints
      ensures thrown == DispatchAndKeep(dispatch, docs).fault
      ensures trace == old(trace) + DispatchAndKeep(dispatch, docs).effects
      ensures checkpoints.records ==
                StoreAfter(old(checkpoints.records), checkpoints.identifier, DispatchAndKeep(dispatch, docs).effects)
    {
      ghost var records0 := checkpoints.records;
      ghost var id := checkpoints.identifier;
      var k := 0;
      while k < |docs|
        invariant 0 <= k <= |docs|
        invariant DispatchAndKeep(dispatch, docs[..k]).fault.None?
        invariant trace == old(trace) + DispatchAndKeep(dispatch, docs[..k]).effects
        invariant checkpoints.records == StoreAfter(records0, id, DispatchAndKeep(dispatch, docs[..k]).effects)
      {
        DispatchAndKeepNext(dispatch, docs, k);
        ghost var prev := DispatchAndKeep(dispatch, docs[..k]).effects;
        ghost var more := KeptTail(dispatch(docs[k]));
        var t := ProcessAndKeep(docs[k]);
        StoreAfterAppend(records0, id, prev, more);
        AppendAssoc(old(trace), prev, more);
        if t.Err? {
          DispatchAndKeepStops(dispatch, docs[..k + 1], docs[k + 1..]);
          assert docs[..k + 1] + docs[k + 1..] == docs;
          return Some(t.fault);
        }
        k := k + 1;
      }
      assert docs[..k] == docs;
      return None;
    }

    /** `keep(processOperation(d))` for one delivered document. */
    method ProcessAndKeep(entry: OplogEntry) returns (r: Result<Option<Timestamp>>)
      modifies this, checkpoints
      requires Valid()
      ensures r == dispatch(entry).result
      ensures trace == old(trace) + KeptTail(dispatch(entry))
      ensures checkpoints.records ==
                StoreAfter(old(checkpoints.records), checkpoints.identifier, KeptTail(dispatch(entry)))
    {
      ghost var d := DispatchEntry(env, entry);
      DispatchKeepsNothing(env, entry);
      StoreAfterKeptTail(checkpoints.records, checkpoints.identifier, d);
      r := ProcessOperation(entry);
      if r.Ok? {
        checkpoints.Keep(r.value);
        AppendAssoc(old(trace), d.calls, [Keep(r.value)]);
        trace := trace + [Keep(r.value)];
      }
    }

    /** One iteration of the `while (true)` loop: the `try` block, then the
        `catch (MongoQueryException e)` clause; returns whether the loop goes
        on, returns, or throws. */
    method Attempt(checkpoint: Option<Timestamp>, run: CursorRun, ghost pass: Passer) returns (outcome: WatchOutcome)
      requires Valid() && Computes(pass, dispatch, namespaces, checkpoint)
      modifies this, checkpoints
      ensures trace == old(trace) + pass(run).effects
      ensures outcome == pass(run).outcome
      ensures checkpoints.records == StoreAfter(old(checkpoints.records), checkpoints.identifier, pass(run).effects)
    {
      var thrown := RunPass(checkpoint, run);
      assert Pass(dispatch, namespaces, checkpoint, run).outcome ==
               if thrown.None? then Looping else Handle(thrown.value, run.interrupted);
      outcome := Looping;
      if thrown.Some? {
        var e := thrown.value;
        if e.MongoQuery? && (Contains(e.message, CappedPositionLost) || Contains(e.message, CursorNotFound)) {
          if run.interrupted {
            outcome := Returned;
          }
        } else {
          outcome := Threw(e);
        }
      }
    }

    /** `watchFromCheckpoint(checkpoint)` over the given passes: each pass opens
        the cursor for the same checkpoint; a recoverable query failure pauses
        and loops, or returns when the pause is interrupted; any other
        exception leaves the method. */
    method WatchFromCheckpoint(checkpoint: Option<Timestamp>, runs: seq<CursorRun>) returns (outcome: WatchOutcome)
      requires Valid()
      modifies this, checkpoints
      ensures trace == old(trace) + Watch(dispatch, namespaces, checkpoint, runs).effects
      ensures outcome == Watch(dispatch, namespaces, checkpoint, runs).outcome
      ensures checkpoints.records ==
                StoreAfter(old(checkpoints.records), checkpoints.identifier, Watch(dispatch, namespaces, checkpoint, runs).effects)
    {
      outcome := WatchLoop(checkpoint, runs, PassOf(dispatch, namespaces, checkpoint));
    }

    /** The `while (true)` loop of `watchFromCheckpoint(checkpoint)`, where
        `pass` stands for one iteration. */
    method WatchLoop(checkpoint: Option<Timestamp>, runs: seq<CursorRun>, ghost pass: Passer) returns (outcome: WatchOutcome)
      requires Valid() && Computes(pass, dispatch, namespaces, checkpoint)
      modifies this, checkpoints
      ensures trace == old(trace) + Loop(pass, runs).effects
      ensures outcome == Loop(pass, runs).outcome
      ensures checkpoints.records == StoreAfter(old(checkpoints.records), checkpoints.identifier, Loop(pass, runs).effects)
    {
      ghost var records0 := checkpoints.records;
      ghost var id := checkpoints.identifier;
      outcome := Looping;
      var i := 0;
      ghost var done: seq<Effect> := [];
      while i < |runs|
        invariant 0 <= i <= |runs|
        invariant done == Loop(pass, runs[..i]).effects
        invariant outcome == Loop(pass, runs[..i]).outcome == Looping
        invariant trace == old(trace) + done
        invariant checkpoints.records == StoreAfter(records0, id, done)
      {
        LoopExtend(pass, runs, i);
        ghost var p := pass(runs[i]);
        outcome := Attempt(checkpoint, runs[i], pass);
        StoreAfterAppend(records0, id, done, p.effects);
        AppendAssoc(old(trace), done, p.effects);
        done := done + p.effects;
        i := i + 1;
        if !outcome.Looping? {
          LoopStopsAt(pass, runs, i);
          return;
        }
      }
      assert runs[..i] == runs;
    }
  }
}
