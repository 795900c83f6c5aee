/** What `watchFromCheckpoint` does over a bounded number of cursor sessions:
    the calls it makes, the checkpoints it stores, and how it stops. The
    imperative streamer in module Streamer is proved to follow it. */
module Tailing {
  import opened Base
  import opened Oplog
  import opened Checkpoints
  import opened Dispatch

  /** How a cursor stops handing out documents: it runs dry, or it raises. */
  datatype CursorEnd = Exhausted | Raised(fault: Fault)

  /** One pass of the `while (true)` loop, as the environment plays it: the log
      as it stands while the cursor is open, how many of the selected documents
      the cursor hands out, how the cursor stops, and whether the one-second
      pause after a lost cursor is interrupted. */
  datatype CursorRun = CursorRun(oplog: seq<OplogEntry>, delivered: nat, end: CursorEnd, interrupted: bool)

  /** How the loop stands after some passes: still looping, returned after an
      interrupted pause, or thrown out of `watchFromCheckpoint`. */
  datatype WatchOutcome = Looping | Returned | Threw(fault: Fault)

  const CappedPositionLost: string := "CappedPositionLost"
  const CursorNotFound: string := "MongoCursorNotFoundException"

  /** The two query failures after which the cursor is reopened. */
  predicate Recoverable(message: string)
  {
    Contains(message, CappedPositionLost) || Contains(message, CursorNotFound)
  }

  /** The documents the cursor of one pass hands out, in cursor order. */
  function Delivered(namespaces: set<string>, checkpoint: Option<Timestamp>, run: CursorRun): (docs: seq<OplogEntry>)
    ensures |docs| == if run.delivered <= |OplogDocuments(run.oplog, namespaces, checkpoint)|
                      then run.delivered else |OplogDocuments(run.oplog, namespaces, checkpoint)|
    ensures docs == OplogDocuments(run.oplog, namespaces, checkpoint)[..|docs|]
  {
    var docs := OplogDocuments(run.oplog, namespaces, checkpoint);
    if run.delivered <= |docs| then docs[..run.delivered] else docs
  }

  /** The effects of `forEachRemaining` over some documents, and the exception
      that stopped it, if any. */
  datatype Session = Session(effects: seq<Effect>, fault: Option<Fault>)

  /** What processing one document does: the calls it makes and what it
      returns or throws. The streamer's is `processOperation` (see
      `Implements`); the loop's properties hold for any processing that
      satisfies `WellBehaved`. */
  type Dispatcher = OplogEntry -> Dispatched

  /** `dispatch` is `processOperation` under `env`. The equation is only
      instantiated where `DispatchEntry` itself is mentioned, so reasoning
      about the loop can treat `dispatch` as opaque. */
  ghost predicate Implements(env: Env, dispatch: Dispatcher)
  {
    forall e {:trigger DispatchEntry(env, e)} :: dispatch(e) == DispatchEntry(env, e)
  }

  /** Only connector calls. */
  predicate ConnectorCalls(calls: seq<Effect>)
  {
    forall i :: 0 <= i < |calls| ==> calls[i].ConnectorCall?
  }

  /** Processing that only calls connectors and returns the entry's own `ts`
      whenever it returns. */
  ghost predicate WellBehaved(dispatch: Dispatcher)
  {
    forall e :: ConnectorCalls(dispatch(e).calls) && (dispatch(e).result.Ok? ==> dispatch(e).result.value == e.ts)
  }

  /** `processOperation` is well behaved. */
  lemma ImplementationWellBehaved(env: Env, dispatch: Dispatcher)
    requires Implements(env, dispatch)
    ensures WellBehaved(dispatch)
  {
    forall e ensures ConnectorCalls(dispatch(e).calls) && (dispatch(e).result.Ok? ==> dispatch(e).result.value == e.ts)
    {
      DispatchDisablesBeforeWrites(env, e);
      DispatchResult(env, e);
    }
  }

  /** `documents.forEachRemaining(d -> keep(processOperation(d)))`: each document
      is dispatched and its returned timestamp stored; an exception from
      `processOperation` ends the pass. */
  function DispatchAndKeep(dispatch: Dispatcher, docs: seq<OplogEntry>): Session
    decreases |docs|
  {
    if docs == [] then Session([], None)
    else
      var prev := DispatchAndKeep(dispatch, docs[..|docs| - 1]);
      if prev.fault.Some? then prev
      else
        var d := dispatch(docs[|docs| - 1]);
        match d.result
        case Err(f) => Session(prev.effects + d.calls, Some(f))
        case Ok(t) => Session(prev.effects + d.calls + [Keep(t)], None)
  }

  /** The `catch (MongoQueryException e)` clause together with the exceptions it
      does not catch: a recoverable query failure pauses and loops again, or
      returns when the pause is interrupted; anything else leaves the method. */
  function Handle(f: Fault, interrupted: bool): (o: WatchOutcome)
    ensures o == Threw(f) <==> !(f.MongoQuery? && Recoverable(f.message))
    ensures o == Returned <==> f.MongoQuery? && Recoverable(f.message) && interrupted
  {
    if f.MongoQuery? && Recoverable(f.message) then (if interrupted then Returned else Looping)
    else Threw(f)
  }

  /** What one pass adds to the trace and how the loop stands afterwards. */
  datatype Watched = Watched(effects: seq<Effect>, outcome: WatchOutcome)

  /** The exception that leaves the `try` block of one pass, if any: the one
      `processOperation` raised, or else the cursor's own. */
  function Thrown(dispatch: Dispatcher, namespaces: set<string>, checkpoint: Option<Timestamp>, run: CursorRun): (f: Option<Fault>)
    ensures DispatchAndKeep(dispatch, Delivered(namespaces, checkpoint, run)).fault.Some? ==>
              f == DispatchAndKeep(dispatch, Delivered(namespaces, checkpoint, run)).fault
    ensures f.None? <==> DispatchAndKeep(dispatch, Delivered(namespaces, checkpoint, run)).fault.None? && run.end.Exhausted?
    ensures DispatchAndKeep(dispatch, Delivered(namespaces, checkpoint, run)).fault.None? && run.end.Raised? ==>
              f == Some(run.end.fault)
  {
    var s := DispatchAndKeep(dispatch, Delivered(namespaces, checkpoint, run));
    if s.fault.Some? then s.fault
    else if run.end.Raised? then Some(run.end.fault)
    else None
  }

  /** One pass: open the cursor with the query for the original checkpoint,
      process what it delivers, then handle the exception that ended it. */
  function Pass(dispatch: Dispatcher, namespaces: set<string>, checkpoint: Option<Timestamp>, run: CursorRun): Watched
  {
    var effects := [OpenCursor(OplogQuery(run.oplog, namespaces, checkpoint))]
                   + DispatchAndKeep(dispatch, Delivered(namespaces, checkpoint, run)).effects;
    match Thrown(dispatch, namespaces, checkpoint, run)
    case None => Watched(effects, Looping)
    case Some(f) => Watched(effects, Handle(f, run.interrupted))
  }

  /** One pass as a function of its run: what it adds to the trace and how
      the loop stands afterwards. */
  type Passer = CursorRun -> Watched

  /** The passes of `watchFromCheckpoint(checkpoint)`. */
  function PassOf(dispatch: Dispatcher, namespaces: set<string>, checkpoint: Option<Timestamp>): Passer
  {
    run => Pass(dispatch, namespaces, checkpoint, run)
  }

  /** `pass` is a pass of `watchFromCheckpoint(checkpoint)`. The equation is
      only instantiated where `Pass` itself is mentioned, so reasoning about
      the loop can treat `pass` as opaque. */
  ghost predicate Computes(pass: Passer, dispatch: Dispatcher, namespaces: set<string>, checkpoint: Option<Timestamp>)
  {
    forall run {:trigger Pass(dispatch, namespaces, checkpoint, run)} :: pass(run) == Pass(dispatch, namespaces, checkpoint, run)
  }

  /** The `while (true)` loop over the given passes; it stops early once a
      pass returns or throws. */
  function Loop(pass: Passer, runs: seq<CursorRun>): Watched
    decreases |runs|
  {
    if runs == [] then Watched([], Looping)
    else
      var prev := Loop(pass, runs[..|runs| - 1]);
      if !prev.outcome.Looping? then prev
      else
        var p := pass(runs[|runs| - 1]);
        Watched(prev.effects + p.effects, p.outcome)
  }

  /** `watchFromCheckpoint(checkpoint)` over the given passes. */
  function Watch(dispatch: Dispatcher, namespaces: set<string>, checkpoint: Option<Timestamp>, runs: seq<CursorRun>): Watched
  {
    Loop(PassOf(dispatch, namespaces, checkpoint), runs)
  }

  // ---------------------------------------------------------------------------
  // The checkpoint store under a trace

  /** The `mongooplog` collection after the `keep` calls of a trace: each sets
      the `ts` of this identifier's record, creating the record if needed. */
  function StoreAfter(records: map<string, Record>, id: string, effects: seq<Effect>): map<string, Record>
    decreases |effects|
  {
    if effects == [] then records
    else
      var prev := StoreAfter(records, id, effects[..|effects| - 1]);
      var last := effects[|effects| - 1];
      if last.Keep? then prev[id := (if id in prev then prev[id] else NoRecord).(ts := last.ts)] else prev
  }

  /** The value of the last `keep` of a trace, if there is one. */
  function LastKept(effects: seq<Effect>): (r: Option<Option<Timestamp>>)
    ensures r.Some? ==> Keep(r.value) in effects
    decreases |effects|
  {
    if effects == [] then None
    else if effects[|effects| - 1].Keep? then Some(effects[|effects| - 1].ts)
    else LastKept(effects[..|effects| - 1])
  }

  /** The timestamps a trace stores, in order. */
  function Kept(effects: seq<Effect>): seq<Option<Timestamp>>
    decreases |effects|
  {
    if effects == [] then []
    else
      var last := effects[|effects| - 1];
      Kept(effects[..|effects| - 1]) + (if last.Keep? then [last.ts] else [])
  }

  /** The `ts` fields of some documents, in order. */
  function TimestampsOf(docs: seq<OplogEntry>): (r: seq<Option<Timestamp>>)
    ensures |r| == |docs|
    ensures forall i :: 0 <= i < |docs| ==> r[i] == docs[i].ts
    decreases |docs|
  {
    if docs == [] then [] else TimestampsOf(docs[..|docs| - 1]) + [docs[|docs| - 1].ts]
  }

  lemma {:induction false} StoreAfterAppend(records: map<string, Record>, id: string, a: seq<Effect>, b: seq<Effect>)
    ensures StoreAfter(records, id, a + b) == StoreAfter(StoreAfter(records, id, a), id, b)
    decreases |b|
  {
    if b == [] {
      assert a + b == a;
    } else {
      assert (a + b)[..|a + b| - 1] == a + b[..|b| - 1];
      StoreAfterAppend(records, id, a, b[..|b| - 1]);
    }
  }

  /** A trace without `keep` leaves the store alone. */
  lemma {:induction false} StoreAfterNoKeep(records: map<string, Record>, id: string, effects: seq<Effect>)
    requires forall i :: 0 <= i < |effects| ==> !effects[i].Keep?
    ensures StoreAfter(records, id, effects) == records
    decreases |effects|
  {
    if effects != [] {
      StoreAfterNoKeep(records, id, effects[..|effects| - 1]);
    }
  }

  /** The calls of one dispatched entry contain no `keep`. */
  lemma DispatchKeepsNothing(env: Env, entry: OplogEntry)
    ensures forall i :: 0 <= i < |DispatchEntry(env, entry).calls| ==> !DispatchEntry(env, entry).calls[i].Keep?
  {
    DispatchDisablesBeforeWrites(env, entry);
  }

  /** `keep` touches nothing but the `ts` of this identifier's record, and
      afterwards the store holds the last value kept. */
  lemma {:induction false} StoreAfterOnlyMovesCheckpoint(records: map<string, Record>, id: string, effects: seq<Effect>)
    ensures var after := StoreAfter(records, id, effects);
            && (forall k :: k != id ==> (k in after <==> k in records))
            && (forall k :: k != id && k in records ==> after[k] == records[k])
            && (LastKept(effects).None? ==> after == records)
            && (LastKept(effects).Some? ==>
                  after == records[id := (if id in records then records[id] else NoRecord).(ts := LastKept(effects).value)])
    decreases |effects|
  {
    if effects != [] {
      StoreAfterOnlyMovesCheckpoint(records, id, effects[..|effects| - 1]);
    }
  }

  // ---------------------------------------------------------------------------
  // Properties of the loop

  /** Every delivered document is processed and then its `ts` stored, in cursor
      order; an exception stops the storing at the document that raised it. */
  lemma {:induction false} KeepFollowsEachDocument(dispatch: Dispatcher, docs: seq<OplogEntry>)
    requires WellBehaved(dispatch)
    ensures var s := DispatchAndKeep(dispatch, docs);
            && (s.fault.None? ==> Kept(s.effects) == TimestampsOf(docs))
            && (s.fault.Some? ==> exists k :: 0 <= k < |docs| && Kept(s.effects) == TimestampsOf(docs[..k])
                                    && dispatch(docs[k]).result == Err(s.fault.value))
    decreases |docs|
  {
    if docs != [] {
      var init := docs[..|docs| - 1];
      var last := docs[|docs| - 1];
      KeepFollowsEachDocument(dispatch, init);
      var prev := DispatchAndKeep(dispatch, init);
      if prev.fault.Some? {
        var k :| 0 <= k < |init| && Kept(prev.effects) == TimestampsOf(init[..k])
                 && dispatch(init[k]).result == Err(prev.fault.value);
        KeepStaysAtFault(dispatch, docs, k);
      } else {
        KeepFollowsLast(dispatch, docs);
        assert docs[..|init|] == init;
      }
    }
  }

  /** The step of `KeepFollowsEachDocument` past a document that raised. */
  lemma KeepStaysAtFault(dispatch: Dispatcher, docs: seq<OplogEntry>, k: nat)
    requires k < |docs| - 1
    requires DispatchAndKeep(dispatch, docs[..|docs| - 1]).fault.Some?
    requires Kept(DispatchAndKeep(dispatch, docs[..|docs| - 1]).effects) == TimestampsOf(docs[..|docs| - 1][..k])
    requires dispatch(docs[..|docs| - 1][k]).result == Err(DispatchAndKeep(dispatch, docs[..|docs| - 1]).fault.value)
    ensures DispatchAndKeep(dispatch, docs) == DispatchAndKeep(dispatch, docs[..|docs| - 1])
    ensures Kept(DispatchAndKeep(dispatch, docs).effects) == TimestampsOf(docs[..k])
    ensures dispatch(docs[k]).result == Err(DispatchAndKeep(dispatch, docs).fault.value)
  {
    assert docs[..|docs| - 1][..k] == docs[..k];
    assert docs[..|docs| - 1][k] == docs[k];
  }

  /** The step of `KeepFollowsEachDocument` for a last document reached
      without an earlier exception. */
  lemma KeepFollowsLast(dispatch: Dispatcher, docs: seq<OplogEntry>)
    requires WellBehaved(dispatch) && docs != []
    requires DispatchAndKeep(dispatch, docs[..|docs| - 1]).fault.None?
    requires Kept(DispatchAndKeep(dispatch, docs[..|docs| - 1]).effects) == TimestampsOf(docs[..|docs| - 1])
    ensures var s := DispatchAndKeep(dispatch, docs);
            && (s.fault.None? ==> Kept(s.effects) == TimestampsOf(docs))
            && (s.fault.Some? ==> Kept(s.effects) == TimestampsOf(docs[..|docs| - 1])
                                  && dispatch(docs[|docs| - 1]).result == Err(s.fault.value))
  {
    var init := docs[..|docs| - 1];
    var last := docs[|docs| - 1];
    var prev := DispatchAndKeep(dispatch, init);
    var d := dispatch(last);
    KeptAfterDispatch(prev.effects, last, d);
    if d.result.Err? {
      assert DispatchAndKeep(dispatch, docs) == Session(prev.effects + d.calls, Some(d.result.fault));
    } else {
      assert DispatchAndKeep(dispatch, docs) == Session(prev.effects + d.calls + [Keep(d.result.value)], None);
      assert TimestampsOf(docs) == TimestampsOf(init) + [last.ts];
    }
  }

  /** Dispatching one entry stores nothing; the `keep` after it stores the
      entry's own `ts`. */
  lemma KeptAfterDispatch(before: seq<Effect>, entry: OplogEntry, d: Dispatched)
    requires ConnectorCalls(d.calls) && (d.result.Ok? ==> d.result.value == entry.ts)
    ensures Kept(before + d.calls) == Kept(before)
    ensures d.result.Ok? ==> Kept(before + d.calls + [Keep(d.result.value)]) == Kept(before) + [entry.ts]
  {
    KeptNoKeep(d.calls);
    KeptAppend(before, d.calls);
    if d.result.Ok? {
      KeptAppend(before + d.calls, [Keep(d.result.value)]);
      assert Kept([Keep(d.result.value)]) == Kept([]) + [entry.ts];
    }
  }

  /** What one processed document adds: its calls, then the `keep` of the
      timestamp it returned. */
  function KeptTail(d: Dispatched): seq<Effect>
  {
    if d.result.Ok? then d.calls + [Keep(d.result.value)] else d.calls
  }

  /** Storing after one processed document: its calls store nothing, and the
      `keep` that follows a return sets the checkpoint to the returned value. */
  lemma StoreAfterKeptTail(records: map<string, Record>, id: string, d: Dispatched)
    requires forall i :: 0 <= i < |d.calls| ==> !d.calls[i].Keep?
    ensures d.result.Err? ==> StoreAfter(records, id, KeptTail(d)) == records
    ensures d.result.Ok? ==>
              StoreAfter(records, id, KeptTail(d)) == records[id := (if id in records then records[id] else NoRecord).(ts := d.result.value)]
  {
    StoreAfterNoKeep(records, id, d.calls);
    if d.result.Ok? {
      StoreAfterAppend(records, id, d.calls, [Keep(d.result.value)]);
      assert [Keep(d.result.value)][..0] == [];
    }
  }

  /** One more delivered document processed while no exception has occurred. */
  lemma DispatchAndKeepNext(dispatch: Dispatcher, docs: seq<OplogEntry>, k: nat)
    requires k < |docs| && DispatchAndKeep(dispatch, docs[..k]).fault.None?
    ensures var d := dispatch(docs[k]);
            && DispatchAndKeep(dispatch, docs[..k + 1]).effects == DispatchAndKeep(dispatch, docs[..k]).effects + KeptTail(d)
            && DispatchAndKeep(dispatch, docs[..k + 1]).fault == (if d.result.Err? then Some(d.result.fault) else None)
  {
    var prev := DispatchAndKeep(dispatch, docs[..k]);
    var d := dispatch(docs[k]);
    DispatchAndKeepExtend(dispatch, docs, k);
    if d.result.Ok? {
      assert prev.effects + d.calls + [Keep(d.result.value)] == prev.effects + (d.calls + [Keep(d.result.value)]);
    }
  }

  /** One more delivered document processed. */
  lemma DispatchAndKeepExtend(dispatch: Dispatcher, docs: seq<OplogEntry>, k: nat)
    requires k < |docs|
    ensures var prev := DispatchAndKeep(dispatch, docs[..k]);
            var d := dispatch(docs[k]);
            DispatchAndKeep(dispatch, docs[..k + 1]) ==
              if prev.fault.Some? then prev
              else match d.result
                case Err(f) => Session(prev.effects + d.calls, Some(f))
                case Ok(t) => Session(prev.effects + d.calls + [Keep(t)], None)
  {
    assert docs[..k + 1][..k] == docs[..k];
  }

  /** One more pass of the loop. */
  lemma LoopExtend(pass: Passer, runs: seq<CursorRun>, i: nat)
    requires i < |runs|
    ensures var prev := Loop(pass, runs[..i]);
            Loop(pass, runs[..i + 1]) ==
              if !prev.outcome.Looping? then prev
              else Watched(prev.effects + pass(runs[i]).effects, pass(runs[i]).outcome)
  {
    assert runs[..i + 1][..i] == runs[..i];
  }

  /** Once a document has raised, the rest of the pass is skipped. */
  lemma {:induction false} DispatchAndKeepStops(dispatch: Dispatcher, docs: seq<OplogEntry>, more: seq<OplogEntry>)
    requires DispatchAndKeep(dispatch, docs).fault.Some?
    ensures DispatchAndKeep(dispatch, docs + more) == DispatchAndKeep(dispatch, docs)
    decreases |more|
  {
    if more == [] {
      assert docs + more == docs;
    } else {
      assert (docs + more)[..|docs + more| - 1] == docs + more[..|more| - 1];
      DispatchAndKeepStops(dispatch, docs, more[..|more| - 1]);
    }
  }

  lemma {:induction false} KeptAppend(a: seq<Effect>, b: seq<Effect>)
    ensures Kept(a + b) == Kept(a) + Kept(b)
    decreases |b|
  {
    if b == [] {
      assert a + b == a;
    } else {
      assert (a + b)[..|a + b| - 1] == a + b[..|b| - 1];
      KeptAppend(a, b[..|b| - 1]);
    }
  }

  lemma {:induction false} KeptNoKeep(effects: seq<Effect>)
    requires forall i :: 0 <= i < |effects| ==> !effects[i].Keep?
    ensures Kept(effects) == []
    decreases |effects|
  {
    if effects != [] {
      KeptNoKeep(effects[..|effects| - 1]);
    }
  }

  /** The queries of the cursors a trace opens, in order. */
  function Opened(effects: seq<Effect>): seq<seq<Condition>>
    decreases |effects|
  {
    if effects == [] then []
    else
      var last := effects[|effects| - 1];
      Opened(effects[..|effects| - 1]) + (if last.OpenCursor? then [last.query] else [])
  }

  /** The query each of the passes opens its cursor with, for `checkpoint` on
      the log that pass sees. */
  function Queries(namespaces: set<string>, checkpoint: Option<Timestamp>, runs: seq<CursorRun>): (qs: seq<seq<Condition>>)
    ensures |qs| == |runs|
    ensures forall k :: 0 <= k < |runs| ==> qs[k] == OplogQuery(runs[k].oplog, namespaces, checkpoint)
    decreases |runs|
  {
    if runs == [] then []
    else Queries(namespaces, checkpoint, runs[..|runs| - 1]) + [OplogQuery(runs[|runs| - 1].oplog, namespaces, checkpoint)]
  }

  lemma {:induction false} OpenedAppend(a: seq<Effect>, b: seq<Effect>)
    ensures Opened(a + b) == Opened(a) + Opened(b)
    decreases |b|
  {
    if b == [] {
      assert a + b == a;
    } else {
      var b' := b[..|b| - 1];
      assert (a + b)[..|a + b| - 1] == a + b';
      assert (a + b)[|a + b| - 1] == b[|b| - 1];
      OpenedAppend(a, b');
    }
  }

  lemma {:induction false} OpenedNone(effects: seq<Effect>)
    requires forall i :: 0 <= i < |effects| ==> !effects[i].OpenCursor?
    ensures Opened(effects) == []
    decreases |effects|
  {
    if effects != [] {
      OpenedNone(effects[..|effects| - 1]);
    }
  }

  /** The only cursor a pass opens is its own. */
  lemma PassOpened(dispatch: Dispatcher, namespaces: set<string>, checkpoint: Option<Timestamp>, run: CursorRun)
    requires WellBehaved(dispatch)
    ensures Opened(Pass(dispatch, namespaces, checkpoint, run).effects) == [OplogQuery(run.oplog, namespaces, checkpoint)]
  {
    var effects := Pass(dispatch, namespaces, checkpoint, run).effects;
    PassOpensOnce(dispatch, namespaces, checkpoint, run);
    var rest := effects[1..];
    assert effects == [effects[0]] + rest;
    assert forall i :: 0 <= i < |rest| ==> rest[i] == effects[i + 1];
    OpenedNone(rest);
    OpenedAppend([effects[0]], rest);
    assert Opened([effects[0]]) == Opened([]) + [effects[0].query];
  }

  /** How many of the passes run: all of them while the loop goes on, up to
      and including the one that stopped it otherwise. */
  function Ran(pass: Passer, runs: seq<CursorRun>): (n: nat)
    ensures n <= |runs|
    ensures Loop(pass, runs[..n]) == Loop(pass, runs)
    ensures Loop(pass, runs).outcome.Looping? ==> n == |runs|
    decreases |runs|
  {
    if runs == [] then 0
    else
      var init := runs[..|runs| - 1];
      if Loop(pass, init).outcome.Looping? then
        assert runs[..|runs|] == runs;
        |runs|
      else
        var n := Ran(pass, init);
        assert init[..n] == runs[..n];
        n
  }

  /** Pass after pass reopens the cursor with the query for the checkpoint the
      method was called with, on the log that pass sees: the timestamps kept
      so far are never used to resume. The cursors opened are exactly those of
      the passes that ran, in order. */
  lemma ReopensFromOriginalCheckpoint(dispatch: Dispatcher, namespaces: set<string>, checkpoint: Option<Timestamp>, runs: seq<CursorRun>)
    requires WellBehaved(dispatch)
    ensures var n := Ran(PassOf(dispatch, namespaces, checkpoint), runs);
            Opened(Watch(dispatch, namespaces, checkpoint, runs).effects) == Queries(namespaces, checkpoint, runs[..n])
  {
    var pass := PassOf(dispatch, namespaces, checkpoint);
    forall k | 0 <= k < |runs|
      ensures Opened(pass(runs[k]).effects) == [OplogQuery(runs[k].oplog, namespaces, checkpoint)]
    {
      PassOpened(dispatch, namespaces, checkpoint, runs[k]);
    }
    LoopOpened(pass, namespaces, checkpoint, runs);
  }

  /** The cursors a loop opens, when each pass opens only the cursor with its
      own query. */
  lemma {:induction false} LoopOpened(pass: Passer, namespaces: set<string>, checkpoint: Option<Timestamp>, runs: seq<CursorRun>)
    requires forall k :: 0 <= k < |runs| ==> Opened(pass(runs[k]).effects) == [OplogQuery(runs[k].oplog, namespaces, checkpoint)]
    ensures Opened(Loop(pass, runs).effects) == Queries(namespaces, checkpoint, runs[..Ran(pass, runs)])
    decreases |runs|
  {
    if runs == [] {
      assert runs[..0] == runs;
    } else {
      var last := |runs| - 1;
      var init := runs[..last];
      assert forall k :: 0 <= k < |init| ==> init[k] == runs[k];
      LoopOpened(pass, namespaces, checkpoint, init);
      var n := Ran(pass, init);
      if Loop(pass, init).outcome.Looping? {
        assert init[..n] == init;
        LoopOpensNext(pass, namespaces, checkpoint, runs);
        assert runs[..|runs|] == runs;
      } else {
        assert init[..n] == runs[..n];
      }
    }
  }

  /** One more pass of a running loop opens one more cursor, with its query. */
  lemma LoopOpensNext(pass: Passer, namespaces: set<string>, checkpoint: Option<Timestamp>, runs: seq<CursorRun>)
    requires runs != []
    requires var init := runs[..|runs| - 1];
             && Loop(pass, init).outcome.Looping?
             && Opened(Loop(pass, init).effects) == Queries(namespaces, checkpoint, init)
    requires Opened(pass(runs[|runs| - 1]).effects) == [OplogQuery(runs[|runs| - 1].oplog, namespaces, checkpoint)]
    ensures Opened(Loop(pass, runs).effects) == Queries(namespaces, checkpoint, runs)
  {
    var init := runs[..|runs| - 1];
    OpenedAppend(Loop(pass, init).effects, pass(runs[|runs| - 1]).effects);
  }

  /** Only connector calls and stored checkpoints. */
  predicate CallsAndKeeps(effects: seq<Effect>)
  {
    forall i :: 0 <= i < |effects| ==> effects[i].ConnectorCall? || effects[i].Keep?
  }

  /** A pass opens the cursor once, first, with the query for the given
      checkpoint on the log it sees. */
  lemma PassOpensOnce(dispatch: Dispatcher, namespaces: set<string>, checkpoint: Option<Timestamp>, run: CursorRun)
    requires WellBehaved(dispatch)
    ensures Pass(dispatch, namespaces, checkpoint, run).effects != []
    ensures Pass(dispatch, namespaces, checkpoint, run).effects[0] == OpenCursor(OplogQuery(run.oplog, namespaces, checkpoint))
    ensures forall i :: 1 <= i < |Pass(dispatch, namespaces, checkpoint, run).effects| ==>
              !Pass(dispatch, namespaces, checkpoint, run).effects[i].OpenCursor?
  {
    var s := DispatchAndKeep(dispatch, Delivered(namespaces, checkpoint, run));
    SessionEffects(dispatch, Delivered(namespaces, checkpoint, run));
    var effects := Pass(dispatch, namespaces, checkpoint, run).effects;
    assert effects == [OpenCursor(OplogQuery(run.oplog, namespaces, checkpoint))] + s.effects;
    forall i | 1 <= i < |effects| ensures !effects[i].OpenCursor? {
      assert effects[i] == s.effects[i - 1];
    }
  }

  /** Processing delivered documents only calls connectors and stores
      checkpoints. */
  lemma {:induction false} SessionEffects(dispatch: Dispatcher, docs: seq<OplogEntry>)
    requires WellBehaved(dispatch)
    ensures CallsAndKeeps(DispatchAndKeep(dispatch, docs).effects)
    decreases |docs|
  {
    if docs != [] {
      var init := docs[..|docs| - 1];
      SessionEffects(dispatch, init);
      var prev := DispatchAndKeep(dispatch, init);
      var d := dispatch(docs[|docs| - 1]);
      if prev.fault.None? {
        CallsAndKeepsAppend(prev.effects, d.calls);
        if d.result.Ok? {
          CallsAndKeepsAppend(prev.effects + d.calls, [Keep(d.result.value)]);
        }
      }
    }
  }

  lemma CallsAndKeepsAppend(a: seq<Effect>, b: seq<Effect>)
    requires CallsAndKeeps(a) && CallsAndKeeps(b)
    ensures CallsAndKeeps(a + b)
  {
    forall i | 0 <= i < |a + b| ensures (a + b)[i].ConnectorCall? || (a + b)[i].Keep? {
      if i < |a| {
        assert (a + b)[i] == a[i];
      } else {
        assert (a + b)[i] == b[i - |a|];
      }
    }
  }

  /** When the log has only grown since the previous pass, the next pass hands
      out again every document the previous pass saw, before the new ones:
      entries whose timestamps were already stored are replayed. */
  lemma ReopenReplays(namespaces: set<string>, checkpoint: Option<Timestamp>, before: seq<OplogEntry>, appended: seq<OplogEntry>)
    requires checkpoint.Some? ==> InLog(before, checkpoint.value)
    ensures var q := OplogQuery(before + appended, namespaces, checkpoint);
            OplogDocuments(before + appended, namespaces, checkpoint)
              == OplogDocuments(before, namespaces, checkpoint) + Select(appended, q)
  {
    var log := before + appended;
    if checkpoint.Some? {
      var k :| 0 <= k < |before| && before[k].ts == checkpoint;
      assert log[k] == before[k];
    }
    SelectAppend(before, appended, OplogQuery(log, namespaces, checkpoint));
  }

  /** A pass that returns, or throws anything but a recoverable query failure,
      is the last one: later passes never run. */
  lemma WatchStopsAfterExit(dispatch: Dispatcher, namespaces: set<string>, checkpoint: Option<Timestamp>, runs: seq<CursorRun>, more: seq<CursorRun>)
    requires !Watch(dispatch, namespaces, checkpoint, runs).outcome.Looping?
    ensures Watch(dispatch, namespaces, checkpoint, runs + more) == Watch(dispatch, namespaces, checkpoint, runs)
  {
    LoopStops(PassOf(dispatch, namespaces, checkpoint), runs, more);
  }

  /** Once the loop has stopped, later passes change nothing. */
  lemma {:induction false} LoopStops(pass: Passer, runs: seq<CursorRun>, more: seq<CursorRun>)
    requires !Loop(pass, runs).outcome.Looping?
    ensures Loop(pass, runs + more) == Loop(pass, runs)
    decreases |more|
  {
    if more == [] {
      assert runs + more == runs;
    } else {
      assert (runs + more)[..|runs + more| - 1] == runs + more[..|more| - 1];
      LoopStops(pass, runs, more[..|more| - 1]);
    }
  }

  /** The loop that has stopped after `i` passes ignores the passes after them. */
  lemma LoopStopsAt(pass: Passer, runs: seq<CursorRun>, i: nat)
    requires i <= |runs| && !Loop(pass, runs[..i]).outcome.Looping?
    ensures Loop(pass, runs) == Loop(pass, runs[..i])
  {
    LoopStops(pass, runs[..i], runs[i..]);
    assert runs[..i] + runs[i..] == runs;
  }

  /** When processing raised nothing, the pass ends as its cursor does: a dry
      cursor and a recoverable query failure loop again, unless the pause
      after the failure is interrupted, which returns; any other exception
      leaves the method. */
  lemma CursorEndDecides(dispatch: Dispatcher, namespaces: set<string>, checkpoint: Option<Timestamp>, run: CursorRun)
    requires DispatchAndKeep(dispatch, Delivered(namespaces, checkpoint, run)).fault.None?
    ensures var o := Pass(dispatch, namespaces, checkpoint, run).outcome;
            && (run.end.Exhausted? ==> o == Looping)
            && (run.end.Raised? && run.end.fault.MongoQuery? && Recoverable(run.end.fault.message) ==>
                  o == if run.interrupted then Returned else Looping)
            && (run.end.Raised? && !(run.end.fault.MongoQuery? && Recoverable(run.end.fault.message)) ==>
                  o == Threw(run.end.fault))
  {
  }

  /** An exception from `processOperation` is an index error or a null
      dereference, never a query failure, so it leaves `watchFromCheckpoint`. */
  lemma ProcessingFaultEscapes(env: Env, dispatch: Dispatcher, namespaces: set<string>, checkpoint: Option<Timestamp>, run: CursorRun)
    requires Implements(env, dispatch)
    requires DispatchAndKeep(dispatch, Delivered(namespaces, checkpoint, run)).fault.Some?
    ensures var f := DispatchAndKeep(dispatch, Delivered(namespaces, checkpoint, run)).fault.value;
            && (f == IndexOutOfBounds || f == NullPointer)
            && Pass(dispatch, namespaces, checkpoint, run).outcome == Threw(f)
  {
    var docs := Delivered(namespaces, checkpoint, run);
    ImplementationWellBehaved(env, dispatch);
    KeepFollowsEachDocument(dispatch, docs);
    var s := DispatchAndKeep(dispatch, docs);
    var k :| 0 <= k < |docs| && Kept(s.effects) == TimestampsOf(docs[..k]) && dispatch(docs[k]).result == Err(s.fault.value);
    DispatchResult(env, docs[k]);
  }

  /** Whether the loop goes round again after a pass that ended with the
      exception `f`, if any: after a dry cursor, or after a recoverable query
      failure whose pause was not interrupted. */
  predicate GoesOn(f: Option<Fault>, interrupted: bool)
  {
    f.None? || (f.value.MongoQuery? && Recoverable(f.value.message) && !interrupted)
  }

  /** One pass lets the loop go on exactly when `GoesOn` holds of how it ended. */
  lemma PassGoesOn(dispatch: Dispatcher, namespaces: set<string>, checkpoint: Option<Timestamp>, run: CursorRun)
    ensures Pass(dispatch, namespaces, checkpoint, run).outcome.Looping? <==>
            GoesOn(Thrown(dispatch, namespaces, checkpoint, run), run.interrupted)
  {
  }

  /** The loop is still running after some passes exactly when each of them
      went on: every recoverable failure without an interrupt is retried. */
  lemma WatchGoesOn(dispatch: Dispatcher, namespaces: set<string>, checkpoint: Option<Timestamp>, runs: seq<CursorRun>)
    ensures Watch(dispatch, namespaces, checkpoint, runs).outcome.Looping? <==>
            forall k :: 0 <= k < |runs| ==> GoesOn(Thrown(dispatch, namespaces, checkpoint, runs[k]), runs[k].interrupted)
  {
    var pass := PassOf(dispatch, namespaces, checkpoint);
    LoopGoesOn(pass, runs);
    forall k | 0 <= k < |runs|
      ensures pass(runs[k]).outcome.Looping? <==> GoesOn(Thrown(dispatch, namespaces, checkpoint, runs[k]), runs[k].interrupted)
    {
      PassGoesOn(dispatch, namespaces, checkpoint, runs[k]);
    }
  }

  /** A loop is still running exactly when every pass so far went on. */
  lemma {:induction false} LoopGoesOn(pass: Passer, runs: seq<CursorRun>)
    ensures Loop(pass, runs).outcome.Looping? <==> forall k :: 0 <= k < |runs| ==> pass(runs[k]).outcome.Looping?
    decreases |runs|
  {
    if runs != [] {
      var init := runs[..|runs| - 1];
      LoopGoesOn(pass, init);
      assert forall k :: 0 <= k < |init| ==> init[k] == runs[k];
    }
  }

  /** A loop that has stopped was stopped by one pass, which ran after all
      earlier ones went on. */
  lemma {:induction false} LoopStoppedBy(pass: Passer, runs: seq<CursorRun>)
    requires !Loop(pass, runs).outcome.Looping?
    ensures exists k :: 0 <= k < |runs| && Loop(pass, runs[..k]).outcome.Looping?
                        && pass(runs[k]).outcome == Loop(pass, runs).outcome
    decreases |runs|
  {
    var last := |runs| - 1;
    var init := runs[..last];
    if Loop(pass, init).outcome.Looping? {
      assert runs[..last] == init;
    } else {
      LoopStoppedBy(pass, init);
      var k :| 0 <= k < |init| && Loop(pass, init[..k]).outcome.Looping?
               && pass(init[k]).outcome == Loop(pass, init).outcome;
      assert init[..k] == runs[..k] && init[k] == runs[k];
    }
  }

  /** A pass that stops the loop either throws what ended it, which is not a
      recoverable query failure, or returns after a recoverable query failure
      whose pause was interrupted. */
  lemma PassExit(dispatch: Dispatcher, namespaces: set<string>, checkpoint: Option<Timestamp>, run: CursorRun)
    ensures var o := Pass(dispatch, namespaces, checkpoint, run).outcome;
            && (o.Threw? ==> !(o.fault.MongoQuery? && Recoverable(o.fault.message))
                             && Thrown(dispatch, namespaces, checkpoint, run) == Some(o.fault))
            && (o.Returned? ==> run.interrupted && Recovered(Thrown(dispatch, namespaces, checkpoint, run)))
  {
  }

  /** How the loop can leave: after the passes before it went on, one pass
      throws an exception other than a recoverable query failure, which leaves
      the method unchanged, or meets a recoverable query failure and has its
      pause interrupted, and returns. */
  lemma WatchOutcomes(dispatch: Dispatcher, namespaces: set<string>, checkpoint: Option<Timestamp>, runs: seq<CursorRun>)
    ensures var o := Watch(dispatch, namespaces, checkpoint, runs).outcome;
            && (o.Threw? ==>
                  && !(o.fault.MongoQuery? && Recoverable(o.fault.message))
                  && exists k :: 0 <= k < |runs| && Watch(dispatch, namespaces, checkpoint, runs[..k]).outcome.Looping?
                                 && Thrown(dispatch, namespaces, checkpoint, runs[k]) == Some(o.fault))
            && (o.Returned? ==>
                  exists k :: 0 <= k < |runs| && Watch(dispatch, namespaces, checkpoint, runs[..k]).outcome.Looping?
                              && runs[k].interrupted && Recovered(Thrown(dispatch, namespaces, checkpoint, runs[k])))
  {
    var pass := PassOf(dispatch, namespaces, checkpoint);
    var o := Loop(pass, runs).outcome;
    if !o.Looping? {
      LoopStoppedBy(pass, runs);
      var k :| 0 <= k < |runs| && Loop(pass, runs[..k]).outcome.Looping? && pass(runs[k]).outcome == o;
      PassExit(dispatch, namespaces, checkpoint, runs[k]);
    }
  }

  /** The pass ended with a recoverable query failure. */
  predicate Recovered(f: Option<Fault>)
  {
    f.Some? && f.value.MongoQuery? && Recoverable(f.value.message)
  }
}
