/** What the compiled queries of the index server select. */
module IndexMeaning {
  import opened Text
  import opened AttrValues
  import opened SqlClause
  import opened IndexQuery

  // ----- join semantics ------------------------------------------------------------------------

  /** One tuple of the join: a job and a row of every attribute table named. */
  datatype Tuple = Tuple(job: Job, rows: map<Bytes, Row>)

  /** How the database compares strings. */
  predicate SqlCompare(op: SqlOp, v: Bytes, l: Bytes, l2: Bytes) {
    match op
    case Eq => v == l
    case Ne => v != l
    case Gt => Lex(l, v) < 0
    case Lt => Lex(v, l) < 0
    case Between => Lex(l, v) <= 0 && Lex(v, l2) <= 0
  }

  predicate AtomHolds(a: Atom, e: Tuple) {
    match a
    case JoinsJob(t) => t in e.rows && e.job.jobid == e.rows[t].jobid
    case OriginIs(t, o) => t in e.rows && e.rows[t].attr.origin == o
    case Cmp(DgJobid, op, l, l2) => SqlCompare(op, e.job.dgJobid, l, l2)
    case Cmp(ValueOf(t), op, l, l2) => t in e.rows && SqlCompare(op, IndexValue(e.rows[t]), l, l2)
  }

  predicate UnitHolds(unit: seq<Atom>, e: Tuple) {
    exists i :: 0 <= i < |unit| && AtomHolds(unit[i], e)
  }

  predicate ClauseHolds(c: Clause, e: Tuple) {
    forall i :: 0 <= i < |c| ==> UnitHolds(c[i], e)
  }

  /** jobs.ownerid = users.userid AND users.cert_subj = peer, for some user row. */
  ghost predicate Owned(db: Database, peer: Option<Bytes>, job: Job) {
    peer.Some? ==> exists u :: u in db.users && u.userid == job.ownerid && u.subject == peer.value
  }

  /** e is a tuple of the joined tables. */
  ghost predicate InJoin(db: Database, tables: set<Bytes>, e: Tuple) {
    && e.job in db.jobs
    && e.rows.Keys == tables
    && forall t :: t in tables ==> t in db.tables && e.rows[t] in db.tables[t]
  }

  ghost predicate Selects(db: Database, q: Query, clause: Clause, job: Job) {
    Owned(db, q.peer, job)
    && exists e: Tuple :: e.job == job && InJoin(db, (set t | t in q.tables), e) && ClauseHolds(clause, e)
  }

  /** With a peer, exactly those of the jobs are selected that belong to a user of that
      subject. */
  lemma OwnersSeeTheirJobs(db: Database, q: Query, clause: Clause, job: Job, peer: Bytes)
    requires q.peer == Some(peer)
    ensures Selects(db, q, clause, job) <==>
      Selects(db, q.(peer := None), clause, job)
      && exists u :: u in db.users && u.userid == job.ownerid && u.subject == peer
  {
  }

  // ----- when the statement is well formed ---------------------------------------------------------

  /** Does the condition contribute text? Attribute conditions always do; a jobId
      one only through a record other than EXISTS. */
  predicate HasText(c: Cond) {
    !IsJobId(c.attr) || exists j :: 0 <= j < |c.records| && c.records[j].op != EXISTS
  }

  /** The first condition with text is the very first one or a jobId condition,
      and every later one with text is about an attribute. */
  predicate WellShaped(cs: seq<Cond>) {
    exists k :: 0 <= k < |cs| && StartsAt(cs, k)
  }

  predicate StartsAt(cs: seq<Cond>, k: nat)
    requires k < |cs|
  {
    && HasText(cs[k]) && (k == 0 || IsJobId(cs[k].attr))
    && (forall j :: 0 <= j < k ==> !HasText(cs[j]))
    && (forall j :: k < j < |cs| && HasText(cs[j]) ==> !IsJobId(cs[j].attr))
  }

  lemma {:induction false} AtomsEmptyIff(c: Cond, rs: seq<Rec>)
    requires Atoms(c, rs).Some?
    ensures Atoms(c, rs).value != [] <==> exists j :: 0 <= j < |rs| && rs[j].op != EXISTS
  {
    if rs != [] {
      if rs[0].op == EXISTS {
        AtomsEmptyIff(c, rs[1..]);
        assert forall j :: 1 <= j < |rs| ==> rs[j] == rs[1..][j - 1];
      } else {
        assert rs[0].op != EXISTS;
      }
    }
  }

  lemma BlockText(c: Cond, i: nat)
    requires CondAtoms(c).Some?
    ensures CondBlock(c, i).units != [] <==> HasText(c)
    ensures forall k :: 0 <= k < |CondBlock(c, i).units| ==> NonEmptyUnit(CondBlock(c, i).units[k])
  {
    AtomsEmptyIff(c, c.records);
  }

  lemma BlocksAreNonEmpty(cs: seq<Cond>)
    requires Compilable(cs)
    ensures NonEmptyBlocks(Blocks(cs))
  {
    forall b | b in Blocks(cs)
      ensures forall k :: 0 <= k < |b.units| ==> NonEmptyUnit(b.units[k])
    {
      var i :| 0 <= i < |cs| && b == Blocks(cs)[i];
      BlockText(cs[i], i);
    }
  }

  predicate BlockStartsAt(bs: seq<Block>, k: nat)
    requires k < |bs|
  {
    && bs[k].units != [] && !bs[k].lead
    && (forall j :: 0 <= j < k ==> bs[j].units == []) && Continues(bs[k + 1..])
  }

  lemma BlockStartsShift(bs: seq<Block>, k: nat)
    requires bs != [] && bs[0].units == [] && 1 <= k < |bs|
    ensures BlockStartsAt(bs, k) <==> BlockStartsAt(bs[1..], k - 1)
  {
    assert bs[k + 1..] == bs[1..][k..];
    assert forall j :: 1 <= j < |bs| ==> bs[j] == bs[1..][j - 1];
  }

  /** Starts, by position instead of recursion. */
  lemma {:induction false} StartsByPosition(bs: seq<Block>)
    ensures Starts(bs) <==> exists k :: 0 <= k < |bs| && BlockStartsAt(bs, k)
  {
    if bs != [] {
      if bs[0].units == [] {
        StartsByPosition(bs[1..]);
        forall k | 1 <= k < |bs| ensures BlockStartsAt(bs, k) <==> BlockStartsAt(bs[1..], k - 1) {
          BlockStartsShift(bs, k);
        }
        if Starts(bs) {
          var k :| 0 <= k < |bs[1..]| && BlockStartsAt(bs[1..], k);
          assert BlockStartsAt(bs, k + 1);
        }
      } else {
        assert Starts(bs) <==> BlockStartsAt(bs, 0);
      }
    }
  }

  lemma ContinuesAt(cs: seq<Cond>, k: nat)
    requires Compilable(cs) && k < |cs|
    ensures Continues(Blocks(cs)[k + 1..]) <==>
      forall j :: k < j < |cs| && HasText(cs[j]) ==> !IsJobId(cs[j].attr)
  {
    var bs := Blocks(cs);
    var tail := bs[k + 1..];
    forall j | k < j < |cs|
      ensures bs[j] == tail[j - k - 1]
      ensures (bs[j].units != [] <==> HasText(cs[j])) && (bs[j].lead <==> !IsJobId(cs[j].attr))
    {
      BlockText(cs[j], j);
    }
    if Continues(tail) {
      forall j | k < j < |cs| && HasText(cs[j]) ensures !IsJobId(cs[j].attr) {
        assert tail[j - k - 1].lead;
      }
    }
    if forall j :: k < j < |cs| && HasText(cs[j]) ==> !IsJobId(cs[j].attr) {
      forall i | 0 <= i < |tail| && tail[i].units != [] ensures tail[i].lead {
        assert tail[i] == bs[i + k + 1];
      }
    }
  }

  lemma StartIffShaped(cs: seq<Cond>)
    requires Compilable(cs)
    ensures Starts(Blocks(cs)) <==> WellShaped(cs)
  {
    var bs := Blocks(cs);
    StartsByPosition(bs);
    forall k | 0 <= k < |cs| ensures BlockStartsAt(bs, k) <==> StartsAt(cs, k) {
      ShapedAt(cs, k);
    }
  }

  lemma ShapedAt(cs: seq<Cond>, k: nat)
    requires Compilable(cs) && k < |cs|
    ensures BlockStartsAt(Blocks(cs), k) <==> StartsAt(cs, k)
  {
    forall j | 0 <= j < |cs| ensures Blocks(cs)[j].units != [] <==> HasText(cs[j]) {
      BlockText(cs[j], j);
    }
    ContinuesAt(cs, k);
  }

  /** The statement is free of syntax errors if and only if the conditions are well
      shaped, and then its clause is the conjunction of all condition units. */
  lemma WellFormedIffShaped(cs: seq<Cond>)
    requires Compilable(cs)
    ensures ParseClause(BlocksTokens(Blocks(cs)))
            == if WellShaped(cs) then Some(BlocksAtoms(Blocks(cs))) else None
  {
    BlocksAreNonEmpty(cs);
    ClauseOfBlocks(Blocks(cs));
    StartIffShaped(cs);
  }

  // ----- what is selected -----------------------------------------------------------------------------

  predicate Compares(a: Atom, v: Bytes) {
    a.Cmp? && SqlCompare(a.op, v, a.literal, a.literal2)
  }

  predicate SomeCompares(atoms: seq<Atom>, v: Bytes) {
    exists k :: 0 <= k < |atoms| && Compares(atoms[k], v)
  }

  /** Does a row satisfy a condition, as compiled: its origin, and one of the
      comparisons unless there are none. */
  predicate RowMatches(c: Cond, row: Row)
    requires CondAtoms(c).Some? && !IsJobId(c.attr)
  {
    && (c.origin.Some? ==> row.attr.origin == c.origin.value)
    && (CondAtoms(c).value == [] || SomeCompares(CondAtoms(c).value, IndexValue(row)))
  }

  predicate JobMatches(c: Cond, job: Job)
    requires CondAtoms(c).Some? && IsJobId(c.attr)
  {
    CondAtoms(c).value == [] || SomeCompares(CondAtoms(c).value, job.dgJobid)
  }

  /** A row of the job that satisfies every condition on its table at once. */
  ghost predicate IsWitness(db: Database, cs: seq<Cond>, job: Job, t: Bytes, row: Row)
    requires Compilable(cs)
  {
    && t in db.tables && row in db.tables[t] && row.jobid == job.jobid
    && forall i :: 0 <= i < |cs| && !IsJobId(cs[i].attr) && TableOf(cs[i].attr) == t ==> RowMatches(cs[i], row)
  }

  /** What the join computes: one witness row per attribute table. */
  ghost predicate Grouped(db: Database, cs: seq<Cond>, peer: Option<Bytes>, job: Job)
    requires Compilable(cs)
  {
    && job in db.jobs && Owned(db, peer, job)
    && (forall i :: 0 <= i < |cs| && IsJobId(cs[i].attr) ==> JobMatches(cs[i], job))
    && (forall t :: Touches(cs, t) ==> exists row :: IsWitness(db, cs, job, t, row))
  }

  predicate OnColumn(a: Atom, col: Column) {
    a.Cmp? && a.column == col
  }

  function ColumnOf(c: Cond): Column {
    if IsJobId(c.attr) then DgJobid else ValueOf(TableOf(c.attr))
  }

  lemma {:induction false} AtomsColumn(c: Cond, rs: seq<Rec>)
    requires Atoms(c, rs).Some?
    ensures forall k :: 0 <= k < |Atoms(c, rs).value| ==> OnColumn(Atoms(c, rs).value[k], ColumnOf(c))
  {
    if rs != [] {
      AtomsColumn(c, rs[1..]);
    }
  }

  lemma OrUnit(c: Cond, e: Tuple)
    requires CondAtoms(c).Some?
    ensures UnitHolds(CondAtoms(c).value, e) <==>
      if IsJobId(c.attr) then SomeCompares(CondAtoms(c).value, e.job.dgJobid)
      else TableOf(c.attr) in e.rows && SomeCompares(CondAtoms(c).value, IndexValue(e.rows[TableOf(c.attr)]))
  {
    AtomsColumn(c, c.records);
    var atoms := CondAtoms(c).value;
    forall k | 0 <= k < |atoms|
      ensures AtomHolds(atoms[k], e) <==>
        if IsJobId(c.attr) then Compares(atoms[k], e.job.dgJobid)
        else TableOf(c.attr) in e.rows && Compares(atoms[k], IndexValue(e.rows[TableOf(c.attr)]))
    {
      assert OnColumn(atoms[k], ColumnOf(c));
    }
  }

  lemma SingleUnit(a: Atom, e: Tuple)
    ensures UnitHolds([a], e) <==> AtomHolds(a, e)
  {
    if AtomHolds(a, e) { assert AtomHolds([a][0], e); }
  }

  lemma JoinUnits(c: Cond, i: nat, e: Tuple)
    requires CondAtoms(c).Some? && !IsJobId(c.attr)
    ensures (forall k :: 0 <= k < |CondBlock(c, i).units| ==> UnitHolds(UnitAtoms(CondBlock(c, i).units[k]), e)) <==>
      && (c.origin.Some? ==> AtomHolds(OriginIs(TableOf(c.attr), c.origin.value), e))
      && AtomHolds(JoinsJob(TableOf(c.attr)), e)
      && (CondAtoms(c).value == [] || UnitHolds(CondAtoms(c).value, e))
  {
    var us, t, n := CondBlock(c, i).units, TableOf(c.attr), if c.origin.Some? then 1 else 0;
    if c.origin.Some? {
      SingleUnit(OriginIs(t, c.origin.value), e);
      assert us[0] == Bare(OriginIs(t, c.origin.value));
    }
    SingleUnit(JoinsJob(t), e);
    assert us[n] == Bare(JoinsJob(t));
    if CondAtoms(c).value != [] {
      assert us[n + 1] == Paren(CondAtoms(c).value);
    }
  }

  /** A block holds of a tuple exactly when its condition holds of the tuple's parts. */
  lemma BlockHolds(c: Cond, i: nat, e: Tuple)
    requires CondAtoms(c).Some?
    ensures ClauseHolds(UnitsAtoms(CondBlock(c, i).units), e) <==>
      if IsJobId(c.attr) then JobMatches(c, e.job)
      else
        && TableOf(c.attr) in e.rows && e.rows[TableOf(c.attr)].jobid == e.job.jobid
        && RowMatches(c, e.rows[TableOf(c.attr)])
  {
    BlockUnits(CondBlock(c, i).units, e);
    OrUnit(c, e);
    if IsJobId(c.attr) {
      var us, atoms := CondBlock(c, i).units, CondAtoms(c).value;
      assert us == if atoms == [] then [] else [Paren(atoms)];
      assert atoms != [] ==> UnitAtoms(us[0]) == atoms;
    } else {
      JoinUnits(c, i, e);
    }
  }

  /** The units of a block, three at most, one by one. */
  lemma BlockUnits(us: seq<Unit>, e: Tuple)
    ensures ClauseHolds(UnitsAtoms(us), e) <==> forall k :: 0 <= k < |us| ==> UnitHolds(UnitAtoms(us[k]), e)
  {
    UnitsAtomsAt(us);
    forall k | 0 <= k < |us| ensures UnitsAtoms(us)[k] == UnitAtoms(us[k]) {}
  }

  lemma {:induction false} UnitsAtomsAt(us: seq<Unit>)
    ensures |UnitsAtoms(us)| == |us| && forall k :: 0 <= k < |us| ==> UnitsAtoms(us)[k] == UnitAtoms(us[k])
  {
    if us != [] { UnitsAtomsAt(us[1..]); }
  }

  lemma {:induction false} ClauseOfAll(bs: seq<Block>, e: Tuple)
    ensures ClauseHolds(BlocksAtoms(bs), e) <==> forall i :: 0 <= i < |bs| ==> ClauseHolds(UnitsAtoms(bs[i].units), e)
  {
    if bs != [] {
      ClauseOfAll(bs[1..], e);
      ClauseConcat(UnitsAtoms(bs[0].units), BlocksAtoms(bs[1..]), e);
      assert forall i :: 1 <= i < |bs| ==> bs[i] == bs[1..][i - 1];
    }
  }

  lemma ClauseConcat(a: Clause, b: Clause, e: Tuple)
    ensures ClauseHolds(a + b, e) <==> ClauseHolds(a, e) && ClauseHolds(b, e)
  {
    if ClauseHolds(a + b, e) {
      forall i | 0 <= i < |a| ensures UnitHolds(a[i], e) { assert a[i] == (a + b)[i]; }
      forall i | 0 <= i < |b| ensures UnitHolds(b[i], e) { assert b[i] == (a + b)[|a| + i]; }
    }
  }

  // ----- the main results --------------------------------------------------------------------------------

  lemma TupleGivesWitness(db: Database, cs: seq<Cond>, e: Tuple, tables: set<Bytes>, t: Bytes)
    requires Compilable(cs) && InJoin(db, tables, e) && t in tables && Touches(cs, t)
    requires forall i :: 0 <= i < |cs| ==> ClauseHolds(UnitsAtoms(Blocks(cs)[i].units), e)
    ensures IsWitness(db, cs, e.job, t, e.rows[t])
  {
    forall i | 0 <= i < |cs| && !IsJobId(cs[i].attr) && TableOf(cs[i].attr) == t
      ensures RowMatches(cs[i], e.rows[t]) && e.rows[t].jobid == e.job.jobid
    {
      assert Blocks(cs)[i] == CondBlock(cs[i], i);
      BlockHolds(cs[i], i, e);
    }
  }

  lemma SelectedIsGrouped(db: Database, cs: seq<Cond>, q: Query, job: Job)
    requires Compilable(cs) && forall t :: t in q.tables <==> Touches(cs, t)
    requires Selects(db, q, BlocksAtoms(Blocks(cs)), job)
    ensures Grouped(db, cs, q.peer, job)
  {
    var tables := set t | t in q.tables;
    var e: Tuple :| e.job == job && InJoin(db, tables, e) && ClauseHolds(BlocksAtoms(Blocks(cs)), e);
    ClauseOfAll(Blocks(cs), e);
    forall t | Touches(cs, t) ensures exists row :: IsWitness(db, cs, job, t, row) {
      TupleGivesWitness(db, cs, e, tables, t);
    }
    forall i | 0 <= i < |cs| && IsJobId(cs[i].attr) ensures JobMatches(cs[i], job) {
      assert Blocks(cs)[i] == CondBlock(cs[i], i);
      BlockHolds(cs[i], i, e);
    }
  }

  ghost function Witness(db: Database, cs: seq<Cond>, job: Job, t: Bytes): (row: Row)
    requires Compilable(cs) && exists row :: IsWitness(db, cs, job, t, row)
    ensures IsWitness(db, cs, job, t, row)
  {
    var row :| IsWitness(db, cs, job, t, row); row
  }

  lemma GroupedIsSelected(db: Database, cs: seq<Cond>, q: Query, job: Job)
    requires Compilable(cs) && forall t :: t in q.tables <==> Touches(cs, t)
    requires Grouped(db, cs, q.peer, job)
    ensures Selects(db, q, BlocksAtoms(Blocks(cs)), job)
  {
    var tables := set t | t in q.tables;
    var e := Tuple(job, map t | t in tables :: Witness(db, cs, job, t));
    forall i | 0 <= i < |cs| ensures ClauseHolds(UnitsAtoms(Blocks(cs)[i].units), e) {
      assert Blocks(cs)[i] == CondBlock(cs[i], i);
      assert !IsJobId(cs[i].attr) ==> Touches(cs, TableOf(cs[i].attr));
      BlockHolds(cs[i], i, e);
    }
    ClauseOfAll(Blocks(cs), e);
    assert InJoin(db, tables, e);
  }

  /** For every list of conditions the compiler accepts: the statement is a syntax
      error unless the conditions are well shaped, and otherwise the join selects
      exactly the jobs that have, in each attribute table named, one row satisfying
      all the conditions on that attribute together. */
  lemma CompiledMeaning(db: Database, cs: seq<Cond>, q: Query, job: Job)
    requires Compilable(cs) && q.tokens == BlocksTokens(Blocks(cs)) && forall t :: t in q.tables <==> Touches(cs, t)
    ensures ParseClause(q.tokens).Some? <==> WellShaped(cs)
    ensures WellShaped(cs) ==> (Selects(db, q, ParseClause(q.tokens).value, job) <==> Grouped(db, cs, q.peer, job))
  {
    WellFormedIffShaped(cs);
    if Selects(db, q, BlocksAtoms(Blocks(cs)), job) {
      SelectedIsGrouped(db, cs, q, job);
    }
    if Grouped(db, cs, q.peer, job) {
      GroupedIsSelected(db, cs, q, job);
    }
  }
}
