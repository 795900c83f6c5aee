/** What `processOperation` does with one oplog entry, as a function of the
    entry and of its collaborators: which connector calls it issues, in which
    order, and what it returns. The imperative streamer in module Streamer is
    proved to issue exactly these calls. */
module Dispatch {
  import opened Base
  import opened Oplog

  /** A registered connector, by its position-independent name. */
  type ConnectorId = nat

  /** `FlattenMongoDocument`: a path-keyed projection of a document. */
  type FlatDocument = map<string, Value>

  /** `FilterMapping::apply`: a test on a flattened document. */
  type Filter = FlatDocument -> bool

  /** A table mapping: its source collection, its destination name (possibly
      null) and its filters. */
  datatype TableMapping = TableMapping(sourceCollection: string, mappingName: Option<string>, filters: seq<Filter>)

  /** The table mappings configured for one source database. */
  datatype DatabaseMapping = DatabaseMapping(tableMappings: seq<TableMapping>)

  /** The streamer's collaborators during one dispatch: the mapping
      configuration by database, the connectors in registration order, the
      flattening of documents and the source database, read by
      (database, collection, `_id`). */
  datatype Env = Env(
    databaseMappings: map<string, DatabaseMapping>,
    connectors: seq<ConnectorId>,
    flatten: Document -> FlatDocument,
    source: (string, string, Value) -> Option<Document>)

  /** The five connector operations; `database` names the database mapping
      passed along as the mapping context. */
  datatype Call =
    | DisableTriggers(table: string)
    | Insert(target: Option<string>, doc: FlatDocument, database: string)
    | Update(target: Option<string>, doc: FlatDocument, database: string)
    | Remove(target: Option<string>, doc: FlatDocument, database: string)
    | EnableTriggers(table: string)

  /** Everything the streamer asks of its collaborators, in order: a call on one
      connector, opening the oplog cursor with a query, or storing a checkpoint. */
  datatype Effect =
    | ConnectorCall(connector: ConnectorId, call: Call)
    | OpenCursor(query: seq<Condition>)
    | Keep(ts: Option<Timestamp>)

  /** `connectors.forEach(c -> c.<call>)`: the same call on every connector, in
      registration order. */
  function FanOut(connectors: seq<ConnectorId>, call: Call): (r: seq<Effect>)
    ensures |r| == |connectors|
    ensures forall k :: 0 <= k < |connectors| ==> r[k] == ConnectorCall(connectors[k], call)
    decreases |connectors|
  {
    if connectors == [] then []
    else FanOut(connectors[..|connectors| - 1], call) + [ConnectorCall(connectors[|connectors| - 1], call)]
  }

  /** `reduce(Predicate::or)` over a non-empty filter list: left-nested
      disjunction. */
  function AnyFilter(filters: seq<Filter>, doc: FlatDocument): bool
    requires filters != []
    decreases |filters|
  {
    if |filters| == 1 then filters[0](doc)
    else AnyFilter(filters[..|filters| - 1], doc) || filters[|filters| - 1](doc)
  }

  /** The combined filter of a table mapping; `orElse(x -> true)` for none. */
  function Accepts(filters: seq<Filter>, doc: FlatDocument): bool
  {
    if filters == [] then true else AnyFilter(filters, doc)
  }

  /** A mapping's filters are OR-combined, and an empty list accepts everything. */
  lemma {:induction false} AcceptsIffSomeFilter(filters: seq<Filter>, doc: FlatDocument)
    ensures Accepts(filters, doc) <==> filters == [] || exists i :: 0 <= i < |filters| && filters[i](doc)
    decreases |filters|
  {
    if |filters| > 1 {
      var init := filters[..|filters| - 1];
      AcceptsIffSomeFilter(init, doc);
      if exists i :: 0 <= i < |init| && init[i](doc) {
        var i :| 0 <= i < |init| && init[i](doc);
        assert filters[i](doc);
      }
      if exists i :: 0 <= i < |filters| && filters[i](doc) {
        var i :| 0 <= i < |filters| && filters[i](doc);
        if i < |init| {
          assert init[i](doc);
        }
      }
    }
  }

  /** `getBySourceName`: the table mappings reading from a collection, in
      configuration order. */
  function BySourceName(tableMappings: seq<TableMapping>, collection: string): (r: seq<TableMapping>)
    ensures |r| <= |tableMappings|
    ensures forall i :: 0 <= i < |r| ==> r[i].sourceCollection == collection && r[i] in tableMappings
    ensures forall tm :: tm in tableMappings && tm.sourceCollection == collection ==> tm in r
    decreases |tableMappings|
  {
    if tableMappings == [] then []
    else
      var init := tableMappings[..|tableMappings| - 1];
      var rest := BySourceName(init, collection);
      var last := tableMappings[|tableMappings| - 1];
      assert tableMappings == init + [last];
      if last.sourceCollection == collection then rest + [last] else rest
  }

  /** The selection keeps configuration order: selecting from two lists one
      after the other is selecting from the first, then from the second. */
  lemma {:induction false} BySourceNameAppend(a: seq<TableMapping>, b: seq<TableMapping>, collection: string)
    ensures BySourceName(a + b, collection) == BySourceName(a, collection) + BySourceName(b, collection)
    decreases |b|
  {
    if b == [] {
      assert a + b == a;
    } else {
      var b' := b[..|b| - 1];
      assert (a + b)[..|a + b| - 1] == a + b';
      assert (a + b)[|a + b| - 1] == b[|b| - 1];
      BySourceNameAppend(a, b', collection);
    }
  }

  /** The table mappings an entry in `database.collection` concerns; none when the
      database is not mapped. */
  function TableMappingsOf(env: Env, database: string, collection: string): (r: seq<TableMapping>)
    ensures database !in env.databaseMappings ==> r == []
    ensures forall i :: 0 <= i < |r| ==> r[i].sourceCollection == collection
    ensures database in env.databaseMappings ==>
              forall tm :: tm in env.databaseMappings[database].tableMappings && tm.sourceCollection == collection ==> tm in r
  {
    if database in env.databaseMappings
    then BySourceName(env.databaseMappings[database].tableMappings, collection)
    else []
  }

  /** The calls made for one table mapping, and the destination names it adds to
      `updatedTable`. */
  datatype Step = Step(calls: seq<Effect>, touched: seq<string>)

  const NoStep: Step := Step([], [])

  /** An accepted insert or update: triggers of a named destination are disabled
      on every connector first and the name is remembered; the write is sent to
      every connector whether or not the mapping has a name. */
  function TriggeredWrite(connectors: seq<ConnectorId>, name: Option<string>, write: Call): Step
  {
    match name
    case Some(n) => Step(FanOut(connectors, DisableTriggers(n)) + FanOut(connectors, write), [n])
    case None => Step(FanOut(connectors, write), [])
  }

  /** The body of `tableMappings.forEach` for one table mapping. Only an
      update without `o2` raises, with a null dereference, and a step remembers
      at most the mapping's own name. */
  function MappingStep(env: Env, entry: OplogEntry, database: string, tm: TableMapping): (r: Result<Step>)
    ensures r.Err? <==> entry.op == "u" && entry.o2.None?
    ensures r.Err? ==> r.fault == NullPointer
    ensures r.Ok? ==> r.value.touched == [] || (tm.mappingName.Some? && r.value.touched == [tm.mappingName.value])
  {
    if entry.op == "i" then
      var doc := env.flatten(entry.o);
      if Accepts(tm.filters, doc)
      then Ok(TriggeredWrite(env.connectors, tm.mappingName, Insert(tm.mappingName, doc, database)))
      else Ok(NoStep)
    else if entry.op == "u" then
      match entry.o2
      case None => Err(NullPointer)
      case Some(ids) =>
        match env.source(database, tm.sourceCollection, Get(ids, "_id"))
        case None => Ok(NoStep)
        case Some(current) =>
          var doc := env.flatten(current);
          if Accepts(tm.filters, doc)
          then Ok(TriggeredWrite(env.connectors, tm.mappingName, Update(tm.mappingName, doc, database)))
          else Ok(NoStep)
    else if entry.op == "d" then
      Ok(Step(FanOut(env.connectors, Remove(tm.mappingName, env.flatten(entry.o), database)), []))
    else
      Ok(NoStep)
  }

  /** The state of the walk over the table mappings: calls so far, `updatedTable`
      so far, and the exception that stopped it, if any. */
  datatype Walked = Walked(calls: seq<Effect>, touched: seq<string>, fault: Option<Fault>)

  /** The table mappings processed in order; an exception stops the walk with
      the calls already made. Only a null dereference can stop it, and it
      remembers at most one name per mapping. */
  function Walk(env: Env, entry: OplogEntry, database: string, tms: seq<TableMapping>): (w: Walked)
    ensures w.fault.Some? ==> w.fault.value == NullPointer
    ensures |w.touched| <= |tms|
    decreases |tms|
  {
    if tms == [] then Walked([], [], None)
    else
      var prev := Walk(env, entry, database, tms[..|tms| - 1]);
      if prev.fault.Some? then prev
      else match MappingStep(env, entry, database, tms[|tms| - 1])
        case Err(f) => Walked(prev.calls, prev.touched, Some(f))
        case Ok(s) => Walked(prev.calls + s.calls, prev.touched + s.touched, None)
  }

  /** One more table mapping processed. */
  lemma WalkExtend(env: Env, entry: OplogEntry, database: string, tms: seq<TableMapping>, i: nat)
    requires i < |tms|
    ensures var prev := Walk(env, entry, database, tms[..i]);
            Walk(env, entry, database, tms[..i + 1]) ==
              if prev.fault.Some? then prev
              else match MappingStep(env, entry, database, tms[i])
                case Err(f) => Walked(prev.calls, prev.touched, Some(f))
                case Ok(s) => Walked(prev.calls + s.calls, prev.touched + s.touched, None)
  {
    assert tms[..i + 1][..i] == tms[..i];
  }

  /** The closing loop `for (table : updatedTable) connectors.forEach(enableTriggers)`. */
  function EnableAll(connectors: seq<ConnectorId>, tables: seq<string>): seq<Effect>
    decreases |tables|
  {
    if tables == [] then []
    else EnableAll(connectors, tables[..|tables| - 1]) + FanOut(connectors, EnableTriggers(tables[|tables| - 1]))
  }

  /** The calls one entry causes and what `processOperation` returns or throws. */
  datatype Dispatched = Dispatched(calls: seq<Effect>, result: Result<Option<Timestamp>>)

  /** `processOperation(entry)` */
  function DispatchEntry(env: Env, entry: OplogEntry): Dispatched
  {
    match SplitNamespace(entry.ns)
    case Err(f) => Dispatched([], Err(f))
    case Ok(names) =>
      var w := Walk(env, entry, names.0, TableMappingsOf(env, names.0, names.1));
      if w.fault.Some? then Dispatched(w.calls, Err(w.fault.value))
      else Dispatched(w.calls + EnableAll(env.connectors, w.touched), Ok(entry.ts))
  }

  // ---------------------------------------------------------------------------
  // Per table mapping

  /** A rejected insert or update makes no call for that mapping; an empty
      filter list never rejects. */
  lemma RejectedWriteIsSilent(env: Env, entry: OplogEntry, database: string, tm: TableMapping)
    requires entry.op == "i"
    requires tm.filters != [] && forall i :: 0 <= i < |tm.filters| ==> !tm.filters[i](env.flatten(entry.o))
    ensures MappingStep(env, entry, database, tm) == Ok(NoStep)
  {
    AcceptsIffSomeFilter(tm.filters, env.flatten(entry.o));
  }

  /** An accepted insert to a named destination: `disableTriggers` on every
      connector, then `insert` on every connector, and the name is remembered. */
  lemma AcceptedNamedInsert(env: Env, entry: OplogEntry, database: string, tm: TableMapping)
    requires entry.op == "i" && tm.mappingName.Some? && Accepts(tm.filters, env.flatten(entry.o))
    ensures var cs := env.connectors;
            var n := tm.mappingName.value;
            MappingStep(env, entry, database, tm).Ok? &&
            var s := MappingStep(env, entry, database, tm).value;
            && |s.calls| == 2 * |cs|
            && s.touched == [n]
            && (forall k :: 0 <= k < |cs| ==> s.calls[k] == ConnectorCall(cs[k], DisableTriggers(n)))
            && (forall k :: 0 <= k < |cs| ==>
                  s.calls[|cs| + k] == ConnectorCall(cs[k], Insert(Some(n), env.flatten(entry.o), database)))
  {
  }

  /** An accepted insert without a destination name is still sent to every
      connector, with no trigger call and nothing remembered. */
  lemma AcceptedUnnamedInsert(env: Env, entry: OplogEntry, database: string, tm: TableMapping)
    requires entry.op == "i" && tm.mappingName.None? && Accepts(tm.filters, env.flatten(entry.o))
    ensures MappingStep(env, entry, database, tm).Ok?
    ensures var s := MappingStep(env, entry, database, tm).value;
            && s.touched == []
            && |s.calls| == |env.connectors|
            && forall k :: 0 <= k < |env.connectors| ==>
                 s.calls[k] == ConnectorCall(env.connectors[k], Insert(None, env.flatten(entry.o), database))
  {
  }

  /** An update re-reads the current document by `o2._id`; when it is gone no
      call is made, otherwise it is filtered and written like an insert. */
  lemma UpdateRereadsSource(env: Env, entry: OplogEntry, database: string, tm: TableMapping)
    requires entry.op == "u" && entry.o2.Some?
    ensures var current := env.source(database, tm.sourceCollection, Get(entry.o2.value, "_id"));
            && (current.None? ==> MappingStep(env, entry, database, tm) == Ok(NoStep))
            && (current.Some? && !Accepts(tm.filters, env.flatten(current.value)) ==>
                  MappingStep(env, entry, database, tm) == Ok(NoStep))
            && (current.Some? && Accepts(tm.filters, env.flatten(current.value)) ==>
                  MappingStep(env, entry, database, tm) ==
                  Ok(TriggeredWrite(env.connectors, tm.mappingName,
                       Update(tm.mappingName, env.flatten(current.value), database))))
  {
  }

  // ---------------------------------------------------------------------------
  // Projections of a call sequence

  /** Whether the effect is a write (`insert` or `update`) to a named destination. */
  function WrittenTable(e: Effect): Option<string>
  {
    if e.ConnectorCall? && (e.call.Insert? || e.call.Update?) then e.call.target else None
  }

  predicate IsEnable(e: Effect)
  {
    e.ConnectorCall? && e.call.EnableTriggers?
  }

  /** Every write to a named destination on a connector comes after a
      `disableTriggers` of that destination on the same connector. */
  predicate DisabledBeforeWrites(calls: seq<Effect>)
  {
    forall j :: 0 <= j < |calls| && WrittenTable(calls[j]).Some? ==>
      exists i :: 0 <= i < j && calls[i] == ConnectorCall(calls[j].connector, DisableTriggers(WrittenTable(calls[j]).value))
  }

  /** Once triggers start being re-enabled, nothing but re-enabling follows. */
  predicate EnablesLast(calls: seq<Effect>)
  {
    forall i, j :: 0 <= i < j < |calls| && IsEnable(calls[i]) ==> IsEnable(calls[j])
  }

  /** The (connector, table) pairs of the `disableTriggers` calls (`enable` false)
      or of the `enableTriggers` calls (`enable` true), in order. */
  function TriggerPairs(calls: seq<Effect>, enable: bool): seq<(ConnectorId, string)>
    decreases |calls|
  {
    if calls == [] then []
    else
      var last := calls[|calls| - 1];
      var pair := if last.ConnectorCall? && last.call.DisableTriggers? && !enable then [(last.connector, last.call.table)]
                  else if last.ConnectorCall? && last.call.EnableTriggers? && enable then [(last.connector, last.call.table)]
                  else [];
      TriggerPairs(calls[..|calls| - 1], enable) + pair
  }

  /** One (connector, table) pair per connector, for each table in turn. */
  function PairsFor(connectors: seq<ConnectorId>, tables: seq<string>): seq<(ConnectorId, string)>
    decreases |tables|
  {
    if tables == [] then []
    else PairsFor(connectors, tables[..|tables| - 1]) + Row(connectors, tables[|tables| - 1])
  }

  function Row(connectors: seq<ConnectorId>, table: string): seq<(ConnectorId, string)>
    decreases |connectors|
  {
    if connectors == [] then []
    else Row(connectors[..|connectors| - 1], table) + [(connectors[|connectors| - 1], table)]
  }

  lemma {:induction false} TriggerPairsAppend(a: seq<Effect>, b: seq<Effect>, enable: bool)
    ensures TriggerPairs(a + b, enable) == TriggerPairs(a, enable) + TriggerPairs(b, enable)
    decreases |b|
  {
    if b == [] {
      assert a + b == a;
    } else {
      var b' := b[..|b| - 1];
      assert (a + b)[..|a + b| - 1] == a + b';
      TriggerPairsAppend(a, b', enable);
    }
  }

  lemma {:induction false} TriggerPairsFanOut(connectors: seq<ConnectorId>, call: Call, enable: bool)
    ensures TriggerPairs(FanOut(connectors, call), enable) ==
              if call.DisableTriggers? && !enable then Row(connectors, call.table)
              else if call.EnableTriggers? && enable then Row(connectors, call.table)
              else []
    decreases |connectors|
  {
    if connectors != [] {
      var init := connectors[..|connectors| - 1];
      TriggerPairsFanOut(init, call, enable);
      assert FanOut(connectors, call)[..|connectors| - 1] == FanOut(init, call);
    }
  }

  lemma {:induction false} TriggerPairsEnableAll(connectors: seq<ConnectorId>, tables: seq<string>)
    ensures TriggerPairs(EnableAll(connectors, tables), true) == PairsFor(connectors, tables)
    ensures TriggerPairs(EnableAll(connectors, tables), false) == []
    ensures forall i :: 0 <= i < |EnableAll(connectors, tables)| ==> IsEnable(EnableAll(connectors, tables)[i])
    decreases |tables|
  {
    if tables != [] {
      var init := tables[..|tables| - 1];
      var call := EnableTriggers(tables[|tables| - 1]);
      TriggerPairsEnableAll(connectors, init);
      TriggerPairsAppend(EnableAll(connectors, init), FanOut(connectors, call), true);
      TriggerPairsAppend(EnableAll(connectors, init), FanOut(connectors, call), false);
      TriggerPairsFanOut(connectors, call, true);
      TriggerPairsFanOut(connectors, call, false);
    }
  }

  // ---------------------------------------------------------------------------
  // Properties of a whole walk

  /** What one step contributes, stated for every successful step. */
  predicate StepShape(connectors: seq<ConnectorId>, s: Step)
  {
    && TriggerPairs(s.calls, false) == PairsFor(connectors, s.touched)
    && TriggerPairs(s.calls, true) == []
    && DisabledBeforeWrites(s.calls)
    && (forall i :: 0 <= i < |s.calls| ==> s.calls[i].ConnectorCall? && !IsEnable(s.calls[i]))
  }

  lemma TriggeredWriteHasShape(connectors: seq<ConnectorId>, name: Option<string>, write: Call)
    requires (write.Insert? || write.Update?) && write.target == name
    ensures StepShape(connectors, TriggeredWrite(connectors, name, write))
  {
    if name.None? {
      UntriggeredHasShape(connectors, write);
    } else {
      DisableThenWriteHasShape(connectors, name.value, write);
    }
  }

  lemma DisableThenWriteHasShape(connectors: seq<ConnectorId>, n: string, write: Call)
    requires (write.Insert? || write.Update?) && write.target == Some(n)
    ensures StepShape(connectors, TriggeredWrite(connectors, Some(n), write))
  {
    var cs := connectors;
    var disable := FanOut(cs, DisableTriggers(n));
    var writes := FanOut(cs, write);
    assert TriggeredWrite(cs, Some(n), write) == Step(disable + writes, [n]);
    DisableThenWritePairs(cs, n, write);
    DisableThenWriteOrder(cs, n, write);
  }

  lemma DisableThenWritePairs(connectors: seq<ConnectorId>, n: string, write: Call)
    requires write.Insert? || write.Update?
    ensures var calls := FanOut(connectors, DisableTriggers(n)) + FanOut(connectors, write);
            && TriggerPairs(calls, false) == PairsFor(connectors, [n])
            && TriggerPairs(calls, true) == []
  {
    var disable := FanOut(connectors, DisableTriggers(n));
    var writes := FanOut(connectors, write);
    TriggerPairsFanOut(connectors, write, false);
    TriggerPairsFanOut(connectors, write, true);
    TriggerPairsFanOut(connectors, DisableTriggers(n), false);
    TriggerPairsFanOut(connectors, DisableTriggers(n), true);
    TriggerPairsAppend(disable, writes, false);
    TriggerPairsAppend(disable, writes, true);
    assert [n][..0] == [];
    assert PairsFor(connectors, [n]) == PairsFor(connectors, []) + Row(connectors, n);
  }

  lemma DisableThenWriteOrder(connectors: seq<ConnectorId>, n: string, write: Call)
    requires (write.Insert? || write.Update?) && write.target == Some(n)
    ensures var calls := FanOut(connectors, DisableTriggers(n)) + FanOut(connectors, write);
            && DisabledBeforeWrites(calls)
            && forall i :: 0 <= i < |calls| ==> calls[i].ConnectorCall? && !IsEnable(calls[i])
  {
    var cs := connectors;
    var disable := FanOut(cs, DisableTriggers(n));
    var writes := FanOut(cs, write);
    var calls := disable + writes;
    forall j | 0 <= j < |calls| && WrittenTable(calls[j]).Some?
      ensures exists i :: 0 <= i < j && calls[i] == ConnectorCall(calls[j].connector, DisableTriggers(WrittenTable(calls[j]).value))
    {
      if j >= |cs| {
        var k := j - |cs|;
        assert calls[j] == writes[k];
        assert calls[k] == disable[k];
      }
    }
    forall i | 0 <= i < |calls| ensures calls[i].ConnectorCall? && !IsEnable(calls[i]) {
      if i < |cs| {
        assert calls[i] == disable[i];
      } else {
        assert calls[i] == writes[i - |cs|];
      }
    }
  }

  lemma StepHasShape(env: Env, entry: OplogEntry, database: string, tm: TableMapping)
    requires MappingStep(env, entry, database, tm).Ok?
    ensures StepShape(env.connectors, MappingStep(env, entry, database, tm).value)
  {
    var cs := env.connectors;
    var s := MappingStep(env, entry, database, tm).value;
    if s == NoStep {
      assert PairsFor(cs, []) == [];
    } else if entry.op == "i" {
      TriggeredWriteHasShape(cs, tm.mappingName, Insert(tm.mappingName, env.flatten(entry.o), database));
    } else if entry.op == "u" {
      var current := env.source(database, tm.sourceCollection, Get(entry.o2.value, "_id")).value;
      TriggeredWriteHasShape(cs, tm.mappingName, Update(tm.mappingName, env.flatten(current), database));
    } else {
      UntriggeredHasShape(cs, Remove(tm.mappingName, env.flatten(entry.o), database));
    }
  }

  /** A call fanned out without touching triggers: a remove, or a write with
      no destination name. */
  lemma UntriggeredHasShape(connectors: seq<ConnectorId>, call: Call)
    requires call.Remove? || ((call.Insert? || call.Update?) && call.target.None?)
    ensures StepShape(connectors, Step(FanOut(connectors, call), []))
  {
    TriggerPairsFanOut(connectors, call, false);
    TriggerPairsFanOut(connectors, call, true);
    assert PairsFor(connectors, []) == [];
    UntriggeredCalls(connectors, call);
  }

  lemma UntriggeredCalls(connectors: seq<ConnectorId>, call: Call)
    requires call.Remove? || ((call.Insert? || call.Update?) && call.target.None?)
    ensures forall i :: 0 <= i < |FanOut(connectors, call)| ==>
              FanOut(connectors, call)[i].ConnectorCall? && !IsEnable(FanOut(connectors, call)[i])
    ensures DisabledBeforeWrites(FanOut(connectors, call))
  {
    var calls := FanOut(connectors, call);
    forall i | 0 <= i < |calls|
      ensures calls[i].ConnectorCall? && !IsEnable(calls[i]) && WrittenTable(calls[i]).None?
    {
      assert calls[i] == ConnectorCall(connectors[i], call);
    }
  }

  lemma {:induction false} DisabledBeforeWritesAppend(a: seq<Effect>, b: seq<Effect>)
    requires DisabledBeforeWrites(a) && DisabledBeforeWrites(b)
    ensures DisabledBeforeWrites(a + b)
  {
    var ab := a + b;
    forall j | 0 <= j < |ab| && WrittenTable(ab[j]).Some?
      ensures exists i :: 0 <= i < j && ab[i] == ConnectorCall(ab[j].connector, DisableTriggers(WrittenTable(ab[j]).value))
    {
      if j < |a| {
        var i :| 0 <= i < j && a[i] == ConnectorCall(a[j].connector, DisableTriggers(WrittenTable(a[j]).value));
        assert ab[i] == a[i];
      } else {
        var jb := j - |a|;
        assert ab[j] == b[jb];
        var i :| 0 <= i < jb && b[i] == ConnectorCall(b[jb].connector, DisableTriggers(WrittenTable(b[jb]).value));
        assert ab[i + |a|] == b[i];
      }
    }
  }

  lemma {:induction false} PairsForAppend(connectors: seq<ConnectorId>, a: seq<string>, b: seq<string>)
    ensures PairsFor(connectors, a + b) == PairsFor(connectors, a) + PairsFor(connectors, b)
    decreases |b|
  {
    if b == [] {
      assert a + b == a;
    } else {
      var b' := b[..|b| - 1];
      assert (a + b)[..|a + b| - 1] == a + b';
      assert (a + b)[|a + b| - 1] == b[|b| - 1];
      PairsForAppend(connectors, a, b');
      AppendAssoc(PairsFor(connectors, a), PairsFor(connectors, b'), Row(connectors, b[|b| - 1]));
    }
  }

  /** A walk that did not fail disabled triggers exactly for `updatedTable`, in
      order and once per connector, never enabled any, and wrote to a named
      destination only after disabling its triggers. */
  lemma {:induction false} WalkHasShape(env: Env, entry: OplogEntry, database: string, tms: seq<TableMapping>)
    ensures var w := Walk(env, entry, database, tms);
            w.fault.None? ==> StepShape(env.connectors, Step(w.calls, w.touched))
    decreases |tms|
  {
    var w := Walk(env, entry, database, tms);
    if tms != [] && w.fault.None? {
      var init := tms[..|tms| - 1];
      var prev := Walk(env, entry, database, init);
      WalkHasShape(env, entry, database, init);
      StepHasShape(env, entry, database, tms[|tms| - 1]);
      var s := MappingStep(env, entry, database, tms[|tms| - 1]).value;
      TriggerPairsAppend(prev.calls, s.calls, false);
      TriggerPairsAppend(prev.calls, s.calls, true);
      PairsForAppend(env.connectors, prev.touched, s.touched);
      DisabledBeforeWritesAppend(prev.calls, s.calls);
    } else if tms == [] {
      assert PairsFor(env.connectors, []) == [];
    }
  }

  /** Every call a walk makes satisfies a property all its steps' calls satisfy. */
  lemma {:induction false} WalkCallsSatisfy(env: Env, entry: OplogEntry, database: string, tms: seq<TableMapping>, p: Effect -> bool)
    requires forall k :: 0 <= k < |tms| ==> var r := MappingStep(env, entry, database, tms[k]);
               r.Ok? ==> forall i :: 0 <= i < |r.value.calls| ==> p(r.value.calls[i])
    ensures forall i :: 0 <= i < |Walk(env, entry, database, tms).calls| ==> p(Walk(env, entry, database, tms).calls[i])
    decreases |tms|
  {
    if tms != [] {
      var init := tms[..|tms| - 1];
      assert forall k :: 0 <= k < |init| ==> init[k] == tms[k];
      WalkCallsSatisfy(env, entry, database, init, p);
      var prev := Walk(env, entry, database, init);
      assert forall i :: 0 <= i < |prev.calls| ==> p(prev.calls[i]);
      var last := MappingStep(env, entry, database, tms[|tms| - 1]);
      var w := Walk(env, entry, database, tms);
      if prev.fault.None? && last.Ok? {
        assert w.calls == prev.calls + last.value.calls;
        AllAppend(prev.calls, last.value.calls, p);
      } else {
        assert w.calls == prev.calls;
      }
    }
  }

  /** A walk over mappings that all do nothing does nothing. */
  lemma {:induction false} WalkOfSilentSteps(env: Env, entry: OplogEntry, database: string, tms: seq<TableMapping>)
    requires forall k :: 0 <= k < |tms| ==> MappingStep(env, entry, database, tms[k]) == Ok(NoStep)
    ensures Walk(env, entry, database, tms) == Walked([], [], None)
    decreases |tms|
  {
    if tms != [] {
      var init := tms[..|tms| - 1];
      assert forall k :: 0 <= k < |init| ==> init[k] == tms[k];
      WalkOfSilentSteps(env, entry, database, init);
    }
  }

  /** A walk fails exactly for an update entry without `o2`, as soon as there is
      a mapping to process, and then with a null dereference. */
  lemma {:induction false} WalkFault(env: Env, entry: OplogEntry, database: string, tms: seq<TableMapping>)
    ensures var w := Walk(env, entry, database, tms);
            (w.fault.Some? <==> entry.op == "u" && entry.o2.None? && tms != []) &&
            (w.fault.Some? ==> w.fault.value == NullPointer && w.calls == [])
    decreases |tms|
  {
    if tms != [] {
      WalkFault(env, entry, database, tms[..|tms| - 1]);
    }
  }

  /** Every remembered table is the name of one of the mappings, and only an
      insert or an update remembers any. */
  predicate NamedWrites(entry: OplogEntry, tms: seq<TableMapping>, touched: seq<string>)
  {
    && (touched != [] ==> entry.op == "i" || entry.op == "u")
    && forall j :: 0 <= j < |touched| ==> exists k :: 0 <= k < |tms| && tms[k].mappingName == Some(touched[j])
  }

  /** Only an accepted insert or update through a named mapping remembers a
      table, and it remembers that mapping's name. */
  lemma {:induction false} TouchedAreNamedWrites(env: Env, entry: OplogEntry, database: string, tms: seq<TableMapping>)
    ensures NamedWrites(entry, tms, Walk(env, entry, database, tms).touched)
    decreases |tms|
  {
    if tms != [] {
      var init := tms[..|tms| - 1];
      TouchedAreNamedWrites(env, entry, database, init);
      var prev := Walk(env, entry, database, init);
      var touched := Walk(env, entry, database, tms).touched;
      var step := MappingStep(env, entry, database, tms[|tms| - 1]);
      forall j | 0 <= j < |touched|
        ensures exists k :: 0 <= k < |tms| && tms[k].mappingName == Some(touched[j])
      {
        if j < |prev.touched| {
          assert touched[j] == prev.touched[j];
          var k :| 0 <= k < |init| && init[k].mappingName == Some(prev.touched[j]);
          assert tms[k] == init[k];
        } else {
          assert touched == prev.touched + step.value.touched;
          assert tms[|tms| - 1].mappingName == Some(touched[j]);
        }
      }
      if touched != [] && prev.touched == [] {
        assert touched == step.value.touched;
      }
      assert NamedWrites(entry, tms, touched);
    }
  }

  // ---------------------------------------------------------------------------
  // Properties of one dispatched entry

  /** The dispatch of an entry whose namespace splits into the given names. */
  lemma DispatchEntryOfWalk(env: Env, entry: OplogEntry, database: string, collection: string)
    requires SplitNamespace(entry.ns) == Ok((database, collection))
    ensures var w := Walk(env, entry, database, TableMappingsOf(env, database, collection));
            DispatchEntry(env, entry) ==
              if w.fault.Some? then Dispatched(w.calls, Err(w.fault.value))
              else Dispatched(w.calls + EnableAll(env.connectors, w.touched), Ok(entry.ts))
  {
  }

  /** `processOperation` returns the entry's own `ts` whenever it returns; it
      throws only for a namespace without two segments (an index error) or for
      an update without `o2` that some table mapping concerns (a null
      dereference), and then before any call. */
  lemma DispatchResult(env: Env, entry: OplogEntry)
    ensures var d := DispatchEntry(env, entry);
            && (d.result.Ok? ==> d.result.value == entry.ts)
            && (d.result.Err? <==>
                  || SplitNamespace(entry.ns).Err?
                  || (entry.op == "u" && entry.o2.None? &&
                      TableMappingsOf(env, SplitNamespace(entry.ns).value.0, SplitNamespace(entry.ns).value.1) != []))
            && (d.result.Err? ==> d.calls == [])
            && (d.result.Err? ==> d.result.fault == IndexOutOfBounds || d.result.fault == NullPointer)
  {
    match SplitNamespace(entry.ns)
    case Err(_) =>
    case Ok(names) =>
      WalkFault(env, entry, names.0, TableMappingsOf(env, names.0, names.1));
  }

  /** An entry of an unmapped database, of a collection no table mapping reads,
      or of an operation other than i/u/d advances the checkpoint without any
      connector call. */
  lemma UnmappedPassthrough(env: Env, entry: OplogEntry)
    requires SplitNamespace(entry.ns).Ok?
    requires var names := SplitNamespace(entry.ns).value;
             || names.0 !in env.databaseMappings
             || TableMappingsOf(env, names.0, names.1) == []
             || entry.op !in {"i", "u", "d"}
    ensures DispatchEntry(env, entry) == Dispatched([], Ok(entry.ts))
  {
    var names := SplitNamespace(entry.ns).value;
    var tms := TableMappingsOf(env, names.0, names.1);
    WalkOfSilentSteps(env, entry, names.0, tms);
  }

  /** An insert that no mapping's filter accepts is consumed without any call. */
  lemma RejectedInsertIsSilent(env: Env, entry: OplogEntry)
    requires SplitNamespace(entry.ns).Ok? && entry.op == "i"
    requires var names := SplitNamespace(entry.ns).value;
             var tms := TableMappingsOf(env, names.0, names.1);
             forall k :: 0 <= k < |tms| ==> !Accepts(tms[k].filters, env.flatten(entry.o))
    ensures DispatchEntry(env, entry) == Dispatched([], Ok(entry.ts))
  {
    var names := SplitNamespace(entry.ns).value;
    WalkOfSilentSteps(env, entry, names.0, TableMappingsOf(env, names.0, names.1));
  }

  /** Trigger bracketing, first half: every write of an entry to a named
      destination follows a `disableTriggers` of it on the same connector, and
      every call the entry makes goes to a connector. */
  lemma DispatchDisablesBeforeWrites(env: Env, entry: OplogEntry)
    ensures DisabledBeforeWrites(DispatchEntry(env, entry).calls)
    ensures forall i :: 0 <= i < |DispatchEntry(env, entry).calls| ==> DispatchEntry(env, entry).calls[i].ConnectorCall?
  {
    match SplitNamespace(entry.ns)
    case Err(_) =>
    case Ok(names) =>
      var tms := TableMappingsOf(env, names.0, names.1);
      var w := Walk(env, entry, names.0, tms);
      DispatchEntryOfWalk(env, entry, names.0, names.1);
      WalkFault(env, entry, names.0, tms);
      if w.fault.None? {
        WalkHasShape(env, entry, names.0, tms);
        EnablingKeepsShape(env.connectors, w.calls, w.touched);
      }
  }

  /** The calls of a successful walk followed by the closing re-enabling loop
      are connector calls that disable before they write. */
  lemma EnablingKeepsShape(connectors: seq<ConnectorId>, calls: seq<Effect>, touched: seq<string>)
    requires StepShape(connectors, Step(calls, touched))
    ensures DisabledBeforeWrites(calls + EnableAll(connectors, touched))
    ensures forall i :: 0 <= i < |calls + EnableAll(connectors, touched)| ==> (calls + EnableAll(connectors, touched))[i].ConnectorCall?
  {
    var enables := EnableAll(connectors, touched);
    TriggerPairsEnableAll(connectors, touched);
    assert DisabledBeforeWrites(enables) by {
      forall j | 0 <= j < |enables| ensures WrittenTable(enables[j]).None? {
        assert IsEnable(enables[j]);
      }
    }
    DisabledBeforeWritesAppend(calls, enables);
    var all := calls + enables;
    forall i | 0 <= i < |all| ensures all[i].ConnectorCall? {
      if i >= |calls| {
        assert all[i] == enables[i - |calls|];
      } else {
        assert all[i] == calls[i];
      }
    }
  }

  /** Trigger bracketing, second half: all `enableTriggers` calls of an entry come
      after every other call, and they repeat its `disableTriggers` calls pair
      for pair, in the same order, duplicates included. */
  lemma DispatchEnablesAfterWrites(env: Env, entry: OplogEntry)
    ensures EnablesLast(DispatchEntry(env, entry).calls)
    ensures DispatchEntry(env, entry).result.Ok? ==>
              TriggerPairs(DispatchEntry(env, entry).calls, true) == TriggerPairs(DispatchEntry(env, entry).calls, false)
  {
    match SplitNamespace(entry.ns)
    case Err(_) =>
    case Ok(names) =>
      var tms := TableMappingsOf(env, names.0, names.1);
      var w := Walk(env, entry, names.0, tms);
      WalkFault(env, entry, names.0, tms);
      if w.fault.None? {
        WalkHasShape(env, entry, names.0, tms);
        var enables := EnableAll(env.connectors, w.touched);
        TriggerPairsEnableAll(env.connectors, w.touched);
        TriggerPairsAppend(w.calls, enables, true);
        TriggerPairsAppend(w.calls, enables, false);
        var calls := w.calls + enables;
        assert DispatchEntry(env, entry).calls == calls;
        assert forall i :: 0 <= i < |w.calls| ==> calls[i] == w.calls[i] && !IsEnable(calls[i]);
        forall i, j | 0 <= i < j < |calls| && IsEnable(calls[i]) ensures IsEnable(calls[j]) {
          assert calls[j] == enables[j - |w.calls|];
        }
      } else {
        assert DispatchEntry(env, entry).calls == [];
      }
  }

  /** A delete is sent as `remove` to every connector for every table mapping of
      the collection, unfiltered, and with no trigger call at all. */
  lemma DeletesAreUnbracketed(env: Env, entry: OplogEntry, tm: TableMapping, c: ConnectorId)
    requires SplitNamespace(entry.ns).Ok? && entry.op == "d"
    requires var names := SplitNamespace(entry.ns).value;
             tm in TableMappingsOf(env, names.0, names.1) && c in env.connectors
    ensures var names := SplitNamespace(entry.ns).value;
            var calls := DispatchEntry(env, entry).calls;
            && ConnectorCall(c, Remove(tm.mappingName, env.flatten(entry.o), names.0)) in calls
            && forall i :: 0 <= i < |calls| ==> calls[i].ConnectorCall? && calls[i].call.Remove?
  {
    var names := SplitNamespace(entry.ns).value;
    var tms := TableMappingsOf(env, names.0, names.1);
    WalkFault(env, entry, names.0, tms);
    WalkHasShape(env, entry, names.0, tms);
    var w := Walk(env, entry, names.0, tms);
    WalkCallsSatisfy(env, entry, names.0, tms, (e: Effect) => e.ConnectorCall? && e.call.Remove?);
    WalkRemovesAll(env, entry, names.0, tms, tm, c);
    assert w.touched == [] by {
      WalkTouchesNothingOnDelete(env, entry, names.0, tms);
    }
    assert EnableAll(env.connectors, w.touched) == [];
  }

  lemma {:induction false} WalkTouchesNothingOnDelete(env: Env, entry: OplogEntry, database: string, tms: seq<TableMapping>)
    requires entry.op == "d"
    ensures Walk(env, entry, database, tms).touched == []
    decreases |tms|
  {
    if tms != [] {
      WalkTouchesNothingOnDelete(env, entry, database, tms[..|tms| - 1]);
    }
  }

  lemma {:induction false} WalkRemovesAll(env: Env, entry: OplogEntry, database: string, tms: seq<TableMapping>, tm: TableMapping, c: ConnectorId)
    requires entry.op == "d" && tm in tms && c in env.connectors
    ensures ConnectorCall(c, Remove(tm.mappingName, env.flatten(entry.o), database)) in Walk(env, entry, database, tms).calls
    decreases |tms|
  {
    var init := tms[..|tms| - 1];
    var prev := Walk(env, entry, database, init);
    WalkFault(env, entry, database, init);
    var s := MappingStep(env, entry, database, tms[|tms| - 1]).value;
    assert Walk(env, entry, database, tms).calls == prev.calls + s.calls;
    if tm == tms[|tms| - 1] {
      var k :| 0 <= k < |env.connectors| && env.connectors[k] == c;
      assert s.calls[k] == ConnectorCall(c, Remove(tm.mappingName, env.flatten(entry.o), database));
    } else {
      assert tm in init by {
        var k :| 0 <= k < |tms| && tms[k] == tm;
        assert init[k] == tm;
      }
      WalkRemovesAll(env, entry, database, init, tm, c);
    }
  }
}
