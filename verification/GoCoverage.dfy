/** Go statement coverage: the block merge, the totals and the per-line evidence of
    scripts/quality/go_coverage.py:50-101. The rows are the lines of the report after parsing; the statements are what
    the syntax helper lists. */
module GoCoverage {
  datatype Option<+T> = None | Some(value: T)

  datatype Mode = SetMode | CountMode | AtomicMode

  datatype Pos = Pos(line: nat, column: nat)

  datatype Id = Id(file: string, start: Pos, end: Pos)

  datatype Row = Row(id: Id, count: nat, hits: nat)

  datatype Block = Block(count: nat, hits: nat)

  datatype Source = Source(file: string, statements: seq<Pos>)

  datatype Report = Report(percent: real, lines: map<string, map<nat, bool>>)

  // Ranges

  /** Tuple order. */
  predicate AtOrBefore(a: Pos, b: Pos) { a.line < b.line || (a.line == b.line && a.column <= b.column) }

  predicate Contains(id: Id, p: Pos) { AtOrBefore(id.start, p) && !AtOrBefore(id.end, p) }

  ghost predicate GoodRange(id: Id) {
    id.start.line >= 1 && id.start.column >= 1 && id.end.column >= 1 && AtOrBefore(id.start, id.end)
  }

  /** A block holds its start but not its end, and nothing on the lines outside it. */
  lemma HalfOpen(id: Id, p: Pos)
    ensures id.start != id.end && AtOrBefore(id.start, id.end) ==> Contains(id, id.start)
    ensures !Contains(id, id.end)
    ensures Contains(id, p) ==> id.start.line <= p.line <= id.end.line
    ensures id.start.line < p.line < id.end.line ==> Contains(id, p)
    ensures p.line == id.start.line < id.end.line ==> (Contains(id, p) <==> id.start.column <= p.column)
    ensures id.start.line < id.end.line == p.line ==> (Contains(id, p) <==> p.column < id.end.column)
    ensures id.start.line == id.end.line == p.line ==>
              (Contains(id, p) <==> id.start.column <= p.column < id.end.column)
  {
  }

  /** Where one block ends and the next begins no statement is in both, and none is lost. */
  lemma BlocksJoin(file: string, a: Pos, b: Pos, c: Pos, p: Pos)
    requires AtOrBefore(a, b) && AtOrBefore(b, c)
    ensures !(Contains(Id(file, a, b), p) && Contains(Id(file, b, c), p))
    ensures Contains(Id(file, a, c), p) <==> Contains(Id(file, a, b), p) || Contains(Id(file, b, c), p)
  {
  }

  // What a report means, whatever the order of its rows and its mode

  /** Every range is proper and no block is given two statement counts. */
  ghost predicate Consistent(rows: seq<Row>) {
    && (forall r | r in rows :: GoodRange(r.id))
    && (forall r, q | r in rows && q in rows && r.id == q.id :: r.count == q.count)
  }

  ghost function Ids(rows: seq<Row>): set<Id> { set r | r in rows :: r.id }

  ghost function HitIds(rows: seq<Row>): set<Id> { set r | r in rows && r.hits > 0 :: r.id }

  ghost predicate CountsOf(rows: seq<Row>, counts: map<Id, nat>) {
    counts.Keys == Ids(rows) && forall r | r in rows :: r.id in counts && counts[r.id] == r.count
  }

  ghost function Weight(ids: set<Id>, counts: map<Id, nat>): nat
    requires ids <= counts.Keys
  {
    if ids == {} then 0 else var id :| id in ids; counts[id] + Weight(ids - {id}, counts)
  }

  /** A statement is seen when a block contains it, and hit when such a block was. */
  ghost predicate Seen(rows: seq<Row>, file: string, p: Pos) {
    exists r :: r in rows && r.id.file == file && Contains(r.id, p)
  }

  ghost predicate Hit(rows: seq<Row>, file: string, p: Pos) {
    exists r :: r in rows && r.id.file == file && Contains(r.id, p) && r.hits > 0
  }

  ghost predicate LinesCovered(rows: seq<Row>, source: Source, lines: map<nat, bool>) {
    && (forall l :: l in lines <==> exists p :: p in source.statements && p.line == l)
    && (forall l | l in lines ::
          lines[l] <==> forall p | p in source.statements && p.line == l :: Hit(rows, source.file, p))
  }

  ghost predicate AllSeen(rows: seq<Row>, sources: seq<Source>) {
    forall s | s in sources :: forall p | p in s.statements :: Seen(rows, s.file, p)
  }

  ghost predicate DistinctFiles(sources: seq<Source>) {
    forall i, j | 0 <= i < j < |sources| :: sources[i].file != sources[j].file
  }

  // Merging

  function Merged(mode: Mode, a: nat, b: nat): nat { if mode.SetMode? then (if a > b then a else b) else a + b }

  /** The index while the rows are read: the blocks so far with their counts, and whether they were hit. */
  ghost predicate Indexed(rows: seq<Row>, index: map<Id, Block>) {
    && index.Keys == Ids(rows)
    && (forall r | r in rows :: r.id in index && index[r.id].count == r.count)
    && (forall id | id in index :: index[id].hits > 0 <==> id in HitIds(rows))
  }

  /** The merge loop: it fails exactly on an inconsistent report, and in any mode a block counts as hit when some row
      says so. */
  method MergeBlocks(mode: Mode, rows: seq<Row>) returns (index: Option<map<Id, Block>>)
    ensures index.Some? <==> Consistent(rows)
    ensures index.Some? ==> Indexed(rows, index.value)
  {
    var merged: map<Id, Block> := map[];
    for i := 0 to |rows|
      invariant Consistent(rows[..i]) && Indexed(rows[..i], merged)
    {
      var r := rows[i];
      assert rows[..i + 1] == rows[..i] + [r];
      var a, b := r.id.start, r.id.end;
      if a.line < 1 || a.column < 1 || b.line < a.line || b.column < 1 || (a.line == b.line && b.column < a.column) {
        assert r in rows && !GoodRange(r.id);
        return None;
      }
      var hits := r.hits;
      if r.id in merged {
        if merged[r.id].count != r.count {
          OtherCount(rows, i, merged);
          return None;
        }
        hits := Merged(mode, merged[r.id].hits, r.hits);
      }
      IndexMore(rows[..i], merged, r, hits);
      merged := merged[r.id := Block(r.count, hits)];
    }
    assert rows[..|rows|] == rows;
    return Some(merged);
  }

  lemma OtherCount(rows: seq<Row>, i: nat, index: map<Id, Block>)
    requires i < |rows| && Indexed(rows[..i], index) && rows[i].id in index && index[rows[i].id].count != rows[i].count
    ensures !Consistent(rows)
  {
    assert rows[i].id in Ids(rows[..i]);
    var q :| q in rows[..i] && q.id == rows[i].id;
    assert q in rows && rows[i] in rows;
  }

  lemma IndexMore(rows: seq<Row>, index: map<Id, Block>, r: Row, hits: nat)
    requires Consistent(rows) && Indexed(rows, index) && GoodRange(r.id)
    requires r.id in index ==> index[r.id].count == r.count && (hits > 0 <==> index[r.id].hits > 0 || r.hits > 0)
    requires r.id !in index ==> hits == r.hits
    ensures Consistent(rows + [r]) && Indexed(rows + [r], index[r.id := Block(r.count, hits)])
  {
    var more, next := rows + [r], index[r.id := Block(r.count, hits)];
    MoreIds(rows, r);
    forall a | a in rows && a.id == r.id ensures a.count == r.count { assert a.id in index; }
    hide Ids, HitIds;
    forall a | a in more ensures a.id in next && next[a.id].count == a.count {}
    forall id | id in next ensures next[id].hits > 0 <==> id in HitIds(more) {}
  }

  lemma MoreIds(rows: seq<Row>, r: Row)
    ensures Ids(rows + [r]) == Ids(rows) + {r.id}
    ensures HitIds(rows + [r]) == HitIds(rows) + if r.hits > 0 then {r.id} else {}
    ensures HitIds(rows) <= Ids(rows)
  {
    assert forall a :: a in rows + [r] <==> a in rows || a == r;
  }

  // Totals

  lemma {:induction false} WeightOf(ids: set<Id>, counts: map<Id, nat>, id: Id)
    requires ids <= counts.Keys && id in ids
    ensures Weight(ids, counts) == counts[id] + Weight(ids - {id}, counts)
    decreases ids
  {
    var x :| x in ids && Weight(ids, counts) == counts[x] + Weight(ids - {x}, counts);
    if x != id {
      WeightOf(ids - {x}, counts, id);
      WeightOf(ids - {id}, counts, x);
      assert ids - {x} - {id} == ids - {id} - {x};
    }
  }

  lemma {:induction false} WeightMonotone(a: set<Id>, b: set<Id>, counts: map<Id, nat>)
    requires a <= b <= counts.Keys
    ensures Weight(a, counts) <= Weight(b, counts)
    decreases b
  {
    if b != {} {
      var x :| x in b;
      WeightOf(b, counts, x);
      if x in a {
        WeightOf(a, counts, x);
        WeightMonotone(a - {x}, b - {x}, counts);
      } else {
        WeightMonotone(a, b - {x}, counts);
      }
    }
  }

  ghost function CountsIn(index: map<Id, Block>): map<Id, nat> { map id | id in index :: index[id].count }

  /** The loop over the merged blocks. */
  method Totals(index: map<Id, Block>, ghost hit: set<Id>) returns (total: nat, covered: nat)
    requires hit <= index.Keys && forall id | id in index :: index[id].hits > 0 <==> id in hit
    ensures total == Weight(index.Keys, CountsIn(index)) && covered == Weight(hit, CountsIn(index)) <= total
  {
    total, covered := 0, 0;
    var todo := index.Keys;
    ghost var counts := CountsIn(index);
    ghost var missed := hit;
    while todo != {}
      invariant todo <= index.Keys && missed == hit * todo
      invariant total + Weight(todo, counts) == Weight(index.Keys, counts)
      invariant covered + Weight(missed, counts) == Weight(hit, counts)
      decreases todo
    {
      var id :| id in todo;
      WeightOf(todo, counts, id);
      if id in hit { WeightOf(missed, counts, id); } else { assert missed - {id} == missed; }
      total := total + index[id].count;
      covered := covered + if index[id].hits > 0 then index[id].count else 0;
      todo := todo - {id};
      missed := missed - {id};
    }
    WeightMonotone(hit, index.Keys, counts);
  }

  // Lines

  /** The evidence for one statement in the index. */
  method Evidence(rows: seq<Row>, index: map<Id, Block>, file: string, p: Pos) returns (found: bool, any: bool)
    requires Indexed(rows, index)
    ensures found == Seen(rows, file, p) && any == Hit(rows, file, p)
  {
    found, any := false, false;
    var todo := index.Keys;
    while todo != {}
      invariant todo <= index.Keys
      invariant found <==> exists id :: id in index && id !in todo && id.file == file && Contains(id, p)
      invariant any <==>
                exists id :: id in index && id !in todo && id.file == file && Contains(id, p) && index[id].hits > 0
      decreases todo
    {
      var id :| id in todo;
      if id.file == file && Contains(id, p) { found, any := true, any || index[id].hits > 0; }
      todo := todo - {id};
    }
    EvidenceIs(rows, index, file, p);
  }

  lemma EvidenceIs(rows: seq<Row>, index: map<Id, Block>, file: string, p: Pos)
    requires Indexed(rows, index)
    ensures Seen(rows, file, p) <==> exists id :: id in index && id.file == file && Contains(id, p)
    ensures Hit(rows, file, p) <==> exists id :: id in index && id.file == file && Contains(id, p) && index[id].hits > 0
  {
    if id :| id in index && id.file == file && Contains(id, p) {
      assert id in Ids(rows);
      var r :| r in rows && r.id == id;
    }
    if id :| id in index && id.file == file && Contains(id, p) && index[id].hits > 0 {
      assert id in HitIds(rows);
      var r :| r in rows && r.id == id && r.hits > 0;
    }
    if r :| r in rows && r.id.file == file && Contains(r.id, p) { assert r.id in index; }
    if r :| r in rows && r.id.file == file && Contains(r.id, p) && r.hits > 0 {
      assert r.id in index && r.id in HitIds(rows);
    }
  }

  /** The lines of one source: a failure exactly when a statement lies in no block. */
  method SourceLines(rows: seq<Row>, index: map<Id, Block>, source: Source) returns (lines: Option<map<nat, bool>>)
    requires Indexed(rows, index)
    ensures lines.Some? <==> forall p | p in source.statements :: Seen(rows, source.file, p)
    ensures lines.Some? ==> LinesCovered(rows, source, lines.value)
  {
    hide Seen, Hit, Indexed;
    var coverage: map<nat, bool> := map[];
    for i := 0 to |source.statements|
      invariant forall p | p in source.statements[..i] :: Seen(rows, source.file, p)
      invariant LinesCovered(rows, Source(source.file, source.statements[..i]), coverage)
    {
      var p := source.statements[i];
      assert source.statements[..i + 1] == source.statements[..i] + [p];
      var found, any := Evidence(rows, index, source.file, p);
      if !found { return None; }
      LineMore(rows, source.file, source.statements[..i], p, coverage, any);
      coverage := coverage[p.line := (if p.line in coverage then coverage[p.line] else true) && any];
    }
    assert source.statements[..|source.statements|] == source.statements;
    return Some(coverage);
  }

  lemma LineMore(rows: seq<Row>, file: string, done: seq<Pos>, p: Pos, lines: map<nat, bool>, any: bool)
    requires LinesCovered(rows, Source(file, done), lines) && any == Hit(rows, file, p)
    ensures LinesCovered(rows, Source(file, done + [p]),
                         lines[p.line := (if p.line in lines then lines[p.line] else true) && any])
  {
    hide Hit;
    var more := lines[p.line := (if p.line in lines then lines[p.line] else true) && any];
    forall l ensures l in more <==> exists q :: q in done + [p] && q.line == l {
      if l in lines { var q :| q in done && q.line == l; assert q in done + [p]; }
      if l == p.line { assert p in done + [p]; }
    }
    forall l | l in more
      ensures more[l] <==> forall q | q in done + [p] && q.line == l :: Hit(rows, file, q)
    {
      if l == p.line {
        assert p in done + [p];
        if p.line !in lines { forall q | q in done ensures q.line != p.line { assert q.line in lines; } }
        forall q | q in done && q.line == l ensures q in done + [p] {}
      } else {
        forall q | q in done + [p] && q.line == l ensures q in done {}
        forall q | q in done && q.line == l ensures q in done + [p] {}
      }
    }
  }

  // The report

  ghost predicate HasStatements(rows: seq<Row>) { exists r :: r in rows && r.count > 0 }

  lemma {:induction false} WeightPositive(ids: set<Id>, counts: map<Id, nat>)
    requires ids <= counts.Keys
    ensures Weight(ids, counts) > 0 <==> exists id :: id in ids && counts[id] > 0
    decreases ids
  {
    if id :| id in ids {
      WeightOf(ids, counts, id);
      WeightPositive(ids - {id}, counts);
      if x :| x in ids && counts[x] > 0 { assert x == id || x in ids - {id}; }
    }
  }

  /** The share of the statements that lie in hit blocks. */
  ghost predicate PercentIs(rows: seq<Row>, percent: real) {
    forall counts | CountsOf(rows, counts) ::
      Weight(Ids(rows), counts) > 0
      && percent == 100.0 * Weight(HitIds(rows), counts) as real / Weight(Ids(rows), counts) as real
  }

  ghost predicate Describes(rows: seq<Row>, sources: seq<Source>, report: Report) {
    && PercentIs(rows, report.percent) && 0.0 <= report.percent <= 100.0
    && (forall f :: f in report.lines <==> exists s :: s in sources && s.file == f)
    && (forall s | s in sources :: s.file in report.lines && LinesCovered(rows, s, report.lines[s.file]))
  }

  lemma PercentBounds(covered: nat, total: nat)
    requires covered <= total && total > 0
    ensures 0.0 <= 100.0 * covered as real / total as real <= 100.0
  {
    var c, t := covered as real, total as real;
    var x := 100.0 * c / t;
    assert x * t == 100.0 * c;
    Scale(100.0, x, t);
    Scale(x, 0.0, t);
  }

  lemma Scale(a: real, b: real, t: real)
    requires t > 0.0
    ensures a < b ==> a * t < b * t
  {
  }

  lemma CountsUnique(rows: seq<Row>, a: map<Id, nat>, b: map<Id, nat>)
    requires CountsOf(rows, a) && CountsOf(rows, b)
    ensures a == b
  {
    forall id | id in a ensures a[id] == b[id] {
      assert id in Ids(rows);
      var r :| r in rows && r.id == id;
    }
  }

  lemma IndexedCounts(rows: seq<Row>, index: map<Id, Block>)
    requires Indexed(rows, index)
    ensures CountsOf(rows, CountsIn(index)) && HitIds(rows) <= index.Keys == Ids(rows)
    ensures forall id | id in index :: index[id].hits > 0 <==> id in HitIds(rows)
  {
    forall id | id in HitIds(rows) ensures id in index { var r :| r in rows && r.id == id; }
  }

  lemma StatementsCounted(rows: seq<Row>, counts: map<Id, nat>)
    requires CountsOf(rows, counts)
    ensures Weight(Ids(rows), counts) > 0 <==> HasStatements(rows)
  {
    WeightPositive(Ids(rows), counts);
    if id :| id in Ids(rows) && counts[id] > 0 { var r :| r in rows && r.id == id; }
    if r :| r in rows && r.count > 0 { assert r.id in Ids(rows); }
  }

  /** go_coverage after parsing: it fails exactly on conflicting blocks, a report without statements, or a source
      statement no block covers; otherwise the report is the one the rows describe. */
  method Coverage(mode: Mode, rows: seq<Row>, sources: seq<Source>) returns (report: Option<Report>)
    requires DistinctFiles(sources)
    ensures report.Some? <==> Consistent(rows) && HasStatements(rows) && AllSeen(rows, sources)
    ensures report.Some? ==> Describes(rows, sources, report.value)
  {
    hide Consistent, Indexed, CountsOf, Ids, HitIds, HasStatements, Seen, LinesCovered, Weight;
    var index := MergeBlocks(mode, rows);
    if index.None? { return None; }
    IndexedCounts(rows, index.value);
    var total, covered := Totals(index.value, HitIds(rows));
    StatementsCounted(rows, CountsIn(index.value));
    if total == 0 { return None; }
    PercentBounds(covered, total);
    var percent := 100.0 * covered as real / total as real;
    assert PercentIs(rows, percent) by {
      forall counts | CountsOf(rows, counts) ensures counts == CountsIn(index.value) {
        CountsUnique(rows, counts, CountsIn(index.value));
      }
    }
    hide PercentIs;
    var lines: map<string, map<nat, bool>> := map[];
    for i := 0 to |sources|
      invariant AllSeen(rows, sources[..i])
      invariant forall f :: f in lines <==> exists s :: s in sources[..i] && s.file == f
      invariant forall s | s in sources[..i] :: s.file in lines && LinesCovered(rows, s, lines[s.file])
    {
      var source := sources[i];
      assert source in sources && sources[..i + 1] == sources[..i] + [source];
      var found := SourceLines(rows, index.value, source);
      if found.None? { return None; }
      SourceMore(rows, sources[..i], source, lines, found.value, lines[source.file := found.value]);
      lines := lines[source.file := found.value];
    }
    assert sources[..|sources|] == sources;
    return Some(Report(percent, lines));
  }

  lemma SourceMore(rows: seq<Row>, done: seq<Source>, source: Source, lines: map<string, map<nat, bool>>,
                   found: map<nat, bool>, more: map<string, map<nat, bool>>)
    requires forall f :: f in lines <==> exists s :: s in done && s.file == f
    requires forall s | s in done :: s.file != source.file && s.file in lines && LinesCovered(rows, s, lines[s.file])
    requires LinesCovered(rows, source, found) && more == lines[source.file := found]
    ensures forall f :: f in more <==> exists s :: s in done + [source] && s.file == f
    ensures forall s | s in done + [source] :: s.file in more && LinesCovered(rows, s, more[s.file])
  {
    hide LinesCovered;
    forall f ensures f in more <==> exists s :: s in done + [source] && s.file == f {
      if f in lines { var s :| s in done && s.file == f; assert s in done + [source]; }
      if f == source.file { assert source in done + [source]; }
    }
  }

  // Independence of order and mode

  lemma SameRows(rows: seq<Row>, others: seq<Row>)
    requires multiset(rows) == multiset(others)
    ensures forall r :: r in rows <==> r in others
  {
    forall r ensures r in rows <==> r in others { assert r in multiset(rows) <==> r in multiset(others); }
  }

  /** The same rows in another order fail together. */
  lemma SameFailure(rows: seq<Row>, others: seq<Row>, sources: seq<Source>)
    requires multiset(rows) == multiset(others)
    ensures Consistent(rows) == Consistent(others) && HasStatements(rows) == HasStatements(others)
    ensures AllSeen(rows, sources) == AllSeen(others, sources)
  {
    SameRows(rows, others);
    hide GoodRange, Contains;
    forall s: string, p ensures Seen(rows, s, p) == Seen(others, s, p) {}
  }

  lemma SameHits(rows: seq<Row>, others: seq<Row>, file: string, p: Pos)
    requires forall r :: r in rows <==> r in others
    ensures Hit(rows, file, p) == Hit(others, file, p)
  {
    hide Contains;
  }

  lemma SameLines(rows: seq<Row>, others: seq<Row>, source: Source, a: map<nat, bool>, b: map<nat, bool>)
    requires forall r :: r in rows <==> r in others
    requires LinesCovered(rows, source, a) && LinesCovered(others, source, b)
    ensures a == b
  {
    hide Hit;
    forall p ensures Hit(rows, source.file, p) == Hit(others, source.file, p) {
      SameHits(rows, others, source.file, p);
    }
    assert a.Keys == b.Keys;
    forall l | l in a ensures a[l] == b[l] {}
  }

  /** A report is determined by its rows as a bag: neither their order nor the mode they were merged in matters. */
  lemma SameReport(rows: seq<Row>, others: seq<Row>, sources: seq<Source>, a: Report, b: Report)
    requires multiset(rows) == multiset(others) && Consistent(rows)
    requires Describes(rows, sources, a) && Describes(others, sources, b)
    ensures a == b
  {
    hide LinesCovered, Consistent, Weight;
    SameRows(rows, others);
    var counts := SomeCounts(rows);
    assert Ids(rows) == Ids(others) && HitIds(rows) == HitIds(others) && CountsOf(others, counts);
    assert a.percent == b.percent;
    assert a.lines.Keys == b.lines.Keys;
    forall f | f in a.lines ensures a.lines[f] == b.lines[f] {
      var s :| s in sources && s.file == f;
      SameLines(rows, others, s, a.lines[f], b.lines[f]);
    }
  }

  lemma {:induction false} SomeCounts(rows: seq<Row>) returns (counts: map<Id, nat>)
    requires Consistent(rows)
    ensures CountsOf(rows, counts)
  {
    if rows == [] {
      counts := map[];
    } else {
      var rest := rows[1..];
      assert rows == [rows[0]] + rest;
      counts := SomeCounts(rest);
      forall r | r in rest && r.id == rows[0].id ensures r.count == rows[0].count {
        assert r in rows && rows[0] in rows;
      }
      counts := counts[rows[0].id := rows[0].count];
    }
  }
}
