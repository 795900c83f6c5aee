/** The replication log as the core sees it: its entries, the query the tailing
    cursor is opened with, the fall-back for a checkpoint that has left the log,
    and the split of a namespace into database and collection. */
module Oplog {
  import opened Base

  /** One oplog document: `ts`, `ns`, `op`, whether `fromMigrate` is present,
      the operation's document `o` and, for updates, the identity document `o2`. */
  datatype OplogEntry = OplogEntry(
    ts: Option<Timestamp>,
    ns: string,
    op: string,
    fromMigrate: bool,
    o: Document,
    o2: Option<Document>)

  /** The operation kinds the cursor asks for. */
  const WatchedOps: seq<string> := ["d", "u", "i"]

  /** One conjunct of the cursor's query document. */
  datatype Condition =
    | NsIn(namespaces: set<string>)   // in("ns", ...)
    | TsAfter(after: Timestamp)       // gt("ts", ...)
    | FromMigrateAbsent               // exists("fromMigrate", false)
    | OpIn(ops: seq<string>)          // in("op", ...)

  /** MongoDB's reading of one conjunct; an entry without `ts` is never greater
      than anything. */
  predicate Holds(c: Condition, e: OplogEntry)
  {
    match c
    case NsIn(namespaces) => e.ns in namespaces
    case TsAfter(after) => e.ts.Some? && Before(after, e.ts.value)
    case FromMigrateAbsent => !e.fromMigrate
    case OpIn(ops) => e.op in ops
  }

  /** The query `and(...)` of all conjuncts. */
  predicate Matches(query: seq<Condition>, e: OplogEntry)
  {
    forall i :: 0 <= i < |query| ==> Holds(query[i], e)
  }

  /** `oplogfilters`: the conjuncts of the cursor query, with the lower bound on
      `ts` only when a checkpoint is given. */
  function OplogFilters(namespaces: set<string>, checkpoint: Option<Timestamp>): (query: seq<Condition>)
    ensures checkpoint.None? ==> forall i :: 0 <= i < |query| ==> !query[i].TsAfter?
    ensures checkpoint.Some? ==> TsAfter(checkpoint.value) in query
  {
    match checkpoint
    case Some(t) => [NsIn(namespaces), TsAfter(t), FromMigrateAbsent, OpIn(WatchedOps)]
    case None => [NsIn(namespaces), FromMigrateAbsent, OpIn(WatchedOps)]
  }

  /** The cursor selects exactly the watched entries, and, from a checkpoint,
      only those strictly after it. */
  lemma OplogFiltersSelect(namespaces: set<string>, checkpoint: Option<Timestamp>, e: OplogEntry)
    ensures Matches(OplogFilters(namespaces, checkpoint), e) <==>
              && e.ns in namespaces
              && !e.fromMigrate
              && e.op in {"d", "u", "i"}
              && (checkpoint.Some? ==> e.ts.Some? && Before(checkpoint.value, e.ts.value))
  {
    var q := OplogFilters(namespaces, checkpoint);
    if checkpoint.Some? {
      assert Holds(q[0], e) && Holds(q[1], e) && Holds(q[2], e) && Holds(q[3], e) ==> Matches(q, e);
    } else {
      assert Holds(q[0], e) && Holds(q[1], e) && Holds(q[2], e) ==> Matches(q, e);
    }
  }

  /** Whether some entry of the log carries exactly this timestamp
      (`find(eq("ts", t)).first() != null`). */
  predicate InLog(oplog: seq<OplogEntry>, t: Timestamp)
  {
    exists i :: 0 <= i < |oplog| && oplog[i].ts == Some(t)
  }

  /** The checkpoint `oplogDocuments` actually queries from: a checkpoint that
      no longer appears in the log is replaced by none. */
  function EffectiveCheckpoint(oplog: seq<OplogEntry>, checkpoint: Option<Timestamp>): (r: Option<Timestamp>)
    ensures r.Some? <==> checkpoint.Some? && InLog(oplog, checkpoint.value)
    ensures r.Some? ==> r == checkpoint
  {
    if checkpoint.Some? && !InLog(oplog, checkpoint.value) then None else checkpoint
  }

  /** The query `oplogDocuments` opens the cursor with. */
  function OplogQuery(oplog: seq<OplogEntry>, namespaces: set<string>, checkpoint: Option<Timestamp>): seq<Condition>
  {
    OplogFilters(namespaces, EffectiveCheckpoint(oplog, checkpoint))
  }

  /** The entries of the log, in natural order, that a query selects. */
  function Select(oplog: seq<OplogEntry>, query: seq<Condition>): (r: seq<OplogEntry>)
    ensures |r| <= |oplog|
    ensures forall i :: 0 <= i < |r| ==> Matches(query, r[i])
    decreases |oplog|
  {
    if oplog == [] then []
    else
      var rest := Select(oplog[..|oplog| - 1], query);
      var last := oplog[|oplog| - 1];
      if Matches(query, last) then rest + [last] else rest
  }

  /** Selecting from a log that grew at its end extends the earlier selection:
      the cursor keeps the log's order. */
  lemma {:induction false} SelectAppend(a: seq<OplogEntry>, b: seq<OplogEntry>, query: seq<Condition>)
    ensures Select(a + b, query) == Select(a, query) + Select(b, query)
    decreases |b|
  {
    if b == [] {
      assert a + b == a;
    } else {
      var b' := b[..|b| - 1];
      assert (a + b)[..|a + b| - 1] == a + b';
      SelectAppend(a, b', query);
    }
  }

  /** Every entry of the log that the query matches is selected. */
  lemma {:induction false} SelectComplete(oplog: seq<OplogEntry>, query: seq<Condition>, e: OplogEntry)
    requires e in oplog && Matches(query, e)
    ensures e in Select(oplog, query)
    decreases |oplog|
  {
    var last := oplog[|oplog| - 1];
    if e != last {
      var k :| 0 <= k < |oplog| && oplog[k] == e;
      assert oplog[..|oplog| - 1][k] == e;
      SelectComplete(oplog[..|oplog| - 1], query, e);
    }
  }

  /** Every selected entry comes from the log. */
  lemma {:induction false} SelectSound(oplog: seq<OplogEntry>, query: seq<Condition>, e: OplogEntry)
    requires e in Select(oplog, query)
    ensures e in oplog
    decreases |oplog|
  {
    var init := oplog[..|oplog| - 1];
    if e in Select(init, query) {
      SelectSound(init, query, e);
      assert oplog == init + [oplog[|oplog| - 1]];
    }
  }

  /** The documents the cursor of `oplogDocuments(checkpoint)` yields. */
  function OplogDocuments(oplog: seq<OplogEntry>, namespaces: set<string>, checkpoint: Option<Timestamp>): seq<OplogEntry>
  {
    Select(oplog, OplogQuery(oplog, namespaces, checkpoint))
  }

  /** Resuming from a checkpoint that is still in the log yields exactly the
      watched entries strictly after it. */
  lemma ResumeAfterCheckpoint(oplog: seq<OplogEntry>, namespaces: set<string>, t: Timestamp, e: OplogEntry)
    requires InLog(oplog, t)
    ensures e in OplogDocuments(oplog, namespaces, Some(t)) <==>
              && e in oplog
              && e.ns in namespaces && !e.fromMigrate && e.op in {"d", "u", "i"}
              && e.ts.Some? && Before(t, e.ts.value)
  {
    var q := OplogQuery(oplog, namespaces, Some(t));
    assert q == OplogFilters(namespaces, Some(t));
    OplogFiltersSelect(namespaces, Some(t), e);
    if e in Select(oplog, q) {
      SelectSound(oplog, q, e);
    } else if e in oplog && Matches(q, e) {
      SelectComplete(oplog, q, e);
    }
  }

  /** A checkpoint that has left the log makes the cursor rescan the whole
      retained log, exactly as if no checkpoint had been stored. */
  lemma StaleCheckpointRescans(oplog: seq<OplogEntry>, namespaces: set<string>, t: Timestamp)
    requires !InLog(oplog, t)
    ensures OplogDocuments(oplog, namespaces, Some(t)) == OplogDocuments(oplog, namespaces, None)
    ensures forall i :: 0 <= i < |OplogQuery(oplog, namespaces, Some(t))| ==> !OplogQuery(oplog, namespaces, Some(t))[i].TsAfter?
  {
  }

  /** The segments of `s` between occurrences of `sep`, all of them. */
  function SplitAll(s: string, sep: char): (parts: seq<string>)
    ensures |parts| >= 1
    ensures forall i :: 0 <= i < |parts| ==> sep !in parts[i]
    decreases |s|
  {
    if s == [] then [[]]
    else
      var init := SplitAll(s[..|s| - 1], sep);
      var c := s[|s| - 1];
      if c == sep then init + [[]]
      else init[..|init| - 1] + [init[|init| - 1] + [c]]
  }

  /** Drops the empty segments at the end, as Java's `String.split` does. */
  function TrimTrailingEmpty(parts: seq<string>): (r: seq<string>)
    ensures |r| <= |parts| && r == parts[..|r|]
    ensures r != [] ==> r[|r| - 1] != []
    ensures forall i :: |r| <= i < |parts| ==> parts[i] == []
    decreases |parts|
  {
    if parts == [] then []
    else if parts[|parts| - 1] == [] then TrimTrailingEmpty(parts[..|parts| - 1])
    else parts
  }

  /** `namespace.split("\\.")` followed by reading elements 0 and 1: the database
      and the collection. Element 1 exists exactly when some character other
      than a dot follows a dot; otherwise an index error is raised. The database
      is the text before the first dot, the collection the text between it and
      the next dot or the end, and anything after that is ignored. */
  function SplitNamespace(ns: string): (r: Result<(string, string)>)
    ensures r.Ok? <==> exists i, j :: 0 <= i < j < |ns| && ns[i] == '.' && ns[j] != '.'
    ensures r.Err? ==> r.fault == IndexOutOfBounds
    ensures r.Ok? ==> '.' !in r.value.0 && '.' !in r.value.1
    ensures r.Ok? ==> var head := r.value.0 + "." + r.value.1;
                      StartsWith(ns, head) && (|ns| == |head| || ns[|head|] == '.')
  {
    var all := SplitAll(ns, '.');
    var parts := TrimTrailingEmpty(all);
    SegmentAfterSeparator(ns, '.');
    TrimmedLength(all);
    if |parts| < 2 then Err(IndexOutOfBounds)
    else
      JoinSplitAll(ns, '.');
      JoinHead(all, '.');
      Ok((parts[0], parts[1]))
  }

  /** The segments joined back together with the separator. */
  function Join(parts: seq<string>, sep: char): string
    requires parts != []
    decreases |parts|
  {
    if |parts| == 1 then parts[0] else Join(parts[..|parts| - 1], sep) + [sep] + parts[|parts| - 1]
  }

  /** Splitting loses nothing: joining the segments gives the string back. */
  lemma {:induction false} JoinSplitAll(s: string, sep: char)
    ensures Join(SplitAll(s, sep), sep) == s
    decreases |s|
  {
    if s != [] {
      var s' := s[..|s| - 1];
      var c := s[|s| - 1];
      var init := SplitAll(s', sep);
      JoinSplitAll(s', sep);
      assert s' + [c] == s;
      if c == sep {
        assert (init + [[]])[..|init|] == init;
      } else {
        var n := |init|;
        var parts := init[..n - 1] + [init[n - 1] + [c]];
        if n > 1 {
          assert parts[..n - 1] == init[..n - 1];
          assert Join(parts, sep) == Join(init[..n - 1], sep) + [sep] + (init[n - 1] + [c]);
        }
      }
    }
  }

  /** The first two segments, with the separator between them, start the
      joined string, and a separator follows them unless the string ends. */
  lemma {:induction false} JoinHead(parts: seq<string>, sep: char)
    requires |parts| >= 2
    ensures var head := parts[0] + [sep] + parts[1];
            StartsWith(Join(parts, sep), head) && (|Join(parts, sep)| == |head| || Join(parts, sep)[|head|] == sep)
    decreases |parts|
  {
    var head := parts[0] + [sep] + parts[1];
    if |parts| == 2 {
      assert parts[..1] == [parts[0]];
    } else {
      var init := parts[..|parts| - 1];
      JoinHead(init, sep);
      var j := Join(init, sep);
      assert Join(parts, sep) == j + [sep] + parts[|parts| - 1];
      assert Join(parts, sep)[..|head|] == j[..|head|];
    }
  }

  /** A string splits into at least two segments exactly when it holds the
      separator. */
  lemma {:induction false} SplitAllCount(s: string, sep: char)
    ensures |SplitAll(s, sep)| >= 2 <==> sep in s
    decreases |s|
  {
    if s != [] {
      SplitAllCount(s[..|s| - 1], sep);
      assert s == s[..|s| - 1] + [s[|s| - 1]];
    }
  }

  /** Some segment after the first is non-empty. */
  predicate LaterSegment(parts: seq<string>)
  {
    exists k :: 1 <= k < |parts| && parts[k] != []
  }

  /** Some character other than the separator follows a separator. */
  predicate SeparatorThenOther(s: string, sep: char)
  {
    exists i, j :: 0 <= i < j < |s| && s[i] == sep && s[j] != sep
  }

  /** A segment after the first is non-empty exactly when some character
      other than the separator follows a separator. */
  lemma {:induction false} SegmentAfterSeparator(s: string, sep: char)
    ensures LaterSegment(SplitAll(s, sep)) <==> SeparatorThenOther(s, sep)
    decreases |s|
  {
    if s != [] {
      var s' := s[..|s| - 1];
      var c := s[|s| - 1];
      SegmentAfterSeparator(s', sep);
      assert s == s' + [c];
      if c == sep {
        LaterSegmentEmptyLast(SplitAll(s', sep));
        SeparatorThenSeparator(s', sep);
      } else {
        SplitAllCount(s', sep);
        LaterSegmentGrowLast(SplitAll(s', sep), c);
        SeparatorThenNonSeparator(s', c, sep);
      }
    }
  }

  /** An empty last segment is never a later non-empty one. */
  lemma LaterSegmentEmptyLast(init: seq<string>)
    ensures LaterSegment(init + [[]]) <==> LaterSegment(init)
  {
    var parts := init + [[]];
    if LaterSegment(parts) {
      var k :| 1 <= k < |parts| && parts[k] != [];
      assert init[k] == parts[k];
    }
    if LaterSegment(init) {
      var k :| 1 <= k < |init| && init[k] != [];
      assert parts[k] == init[k];
    }
  }

  /** Growing the last segment makes it non-empty; it is a later one when
      there are at least two. */
  lemma LaterSegmentGrowLast(init: seq<string>, c: char)
    requires init != []
    ensures var n := |init|;
            LaterSegment(init[..n - 1] + [init[n - 1] + [c]]) <==> LaterSegment(init) || n >= 2
  {
    var n := |init|;
    var parts := init[..n - 1] + [init[n - 1] + [c]];
    if LaterSegment(init) {
      var k :| 1 <= k < |init| && init[k] != [];
      if k < n - 1 {
        assert parts[k] == init[k];
      }
    }
    if n >= 2 {
      assert parts[n - 1] != [];
    }
  }

  /** A trailing separator adds no separator-then-other pair. */
  lemma SeparatorThenSeparator(s: string, sep: char)
    ensures SeparatorThenOther(s + [sep], sep) <==> SeparatorThenOther(s, sep)
  {
    var t := s + [sep];
    if SeparatorThenOther(t, sep) {
      var i, j :| 0 <= i < j < |t| && t[i] == sep && t[j] != sep;
      assert s[i] == t[i] && s[j] == t[j];
    }
    if SeparatorThenOther(s, sep) {
      var i, j :| 0 <= i < j < |s| && s[i] == sep && s[j] != sep;
      assert t[i] == s[i] && t[j] == s[j];
    }
  }

  /** A trailing non-separator adds a pair exactly when a separator came before. */
  lemma SeparatorThenNonSeparator(s: string, c: char, sep: char)
    requires c != sep
    ensures SeparatorThenOther(s + [c], sep) <==> SeparatorThenOther(s, sep) || sep in s
  {
    var t := s + [c];
    if SeparatorThenOther(t, sep) {
      var i, j :| 0 <= i < j < |t| && t[i] == sep && t[j] != sep;
      assert s[i] == t[i];
      if j < |s| {
        assert s[j] == t[j];
      }
    }
    if SeparatorThenOther(s, sep) {
      var i, j :| 0 <= i < j < |s| && s[i] == sep && s[j] != sep;
      assert t[i] == s[i] && t[j] == s[j];
    }
    if sep in s {
      var i :| 0 <= i < |s| && s[i] == sep;
      assert t[i] == sep && t[|s|] == c;
    }
  }

  /** At least two segments survive trimming exactly when a segment after the
      first is not empty. */
  lemma TrimmedLength(parts: seq<string>)
    ensures |TrimTrailingEmpty(parts)| >= 2 <==> LaterSegment(parts)
  {
    var r := TrimTrailingEmpty(parts);
    if |r| >= 2 {
      assert parts[|r| - 1] == r[|r| - 1];
    }
    if LaterSegment(parts) {
      var k :| 1 <= k < |parts| && parts[k] != [];
    }
  }

  lemma {:induction false} SplitAllNoSep(s: string, sep: char)
    requires sep !in s
    ensures SplitAll(s, sep) == [s]
    decreases |s|
  {
    if s != [] {
      SplitAllNoSep(s[..|s| - 1], sep);
      assert s[..|s| - 1] + [s[|s| - 1]] == s;
    }
  }

  /** Splitting at one separator splits the two sides independently. */
  lemma {:induction false} SplitAllConcat(a: string, b: string, sep: char)
    ensures SplitAll(a + [sep] + b, sep) == SplitAll(a, sep) + SplitAll(b, sep)
    decreases |b|
  {
    if b == [] {
      SplitAllSnoc(a, sep, sep);
      assert a + [sep] + b == a + [sep];
    } else {
      var b' := b[..|b| - 1];
      var x := b[|b| - 1];
      var s0 := a + [sep] + b';
      assert a + [sep] + b == s0 + [x];
      assert b == b' + [x];
      SplitAllConcat(a, b', sep);
      SplitAllSnoc(s0, x, sep);
      SplitAllSnoc(b', x, sep);
      ExtendLast(SplitAll(a, sep), SplitAll(b', sep), x);
    }
  }

  /** Adding an empty segment or extending the last one commutes with
      putting segments in front. */
  lemma ExtendLast(p: seq<string>, q: seq<string>, x: char)
    requires q != []
    ensures (p + q) + [[]] == p + (q + [[]])
    ensures var pq := p + q;
            pq[..|pq| - 1] + [pq[|pq| - 1] + [x]] == p + (q[..|q| - 1] + [q[|q| - 1] + [x]])
  {
    var pq := p + q;
    assert pq[..|pq| - 1] == p + q[..|q| - 1];
  }

  /** One more character: a separator opens a new empty segment, anything
      else extends the last one. */
  lemma SplitAllSnoc(s: string, x: char, sep: char)
    ensures var init := SplitAll(s, sep);
            SplitAll(s + [x], sep) ==
              if x == sep then init + [[]] else init[..|init| - 1] + [init[|init| - 1] + [x]]
  {
    assert (s + [x])[..|s|] == s;
  }

  /** A namespace written `<database>.<collection>` splits back into its parts. */
  lemma SplitNamespaceRoundTrip(database: string, collection: string)
    requires '.' !in database && '.' !in collection && collection != []
    ensures SplitNamespace(database + "." + collection) == Ok((database, collection))
  {
    SplitAllNoSep(database, '.');
    SplitAllNoSep(collection, '.');
    SplitAllConcat(database, collection, '.');
    assert SplitAll(database + "." + collection, '.') == [database, collection];
  }

  /** Only the first two segments are read: `<database>.<collection>.<rest>`
      splits into the database and the collection whatever the rest is. */
  lemma SplitNamespaceIgnoresRest(database: string, collection: string, rest: string)
    requires '.' !in database && '.' !in collection && collection != []
    ensures SplitNamespace(database + "." + collection + "." + rest) == Ok((database, collection))
  {
    var tail := collection + "." + rest;
    assert database + "." + collection + "." + rest == database + "." + tail;
    SplitAllNoSep(database, '.');
    SplitAllNoSep(collection, '.');
    SplitAllConcat(database, tail, '.');
    SplitAllConcat(collection, rest, '.');
    var all := SplitAll(database + "." + tail, '.');
    assert all[0] == database && all[1] == collection;
    var parts := TrimTrailingEmpty(all);
    assert |parts| >= 2;
  }
}
