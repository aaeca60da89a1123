/** When the index server's answers are exactly what the query asks for on the
    full, untruncated values. */
module IndexExactness {
  import opened Text
  import opened AttrValues
  import opened SqlClause
  import opened IndexQuery
  import opened IndexMeaning

  // ----- what a query asks for ------------------------------------------------------------------

  function Bound(v: Option<Value>): Bytes {
    if StringOf(v).Some? then StringOf(v).value else []
  }

  /** A record on a full value: EXISTS accepts any. */
  predicate RecHolds(r: Rec, v: Bytes) {
    r.op == EXISTS || Compare(r.op, v, Bound(r.value), Bound(r.value2))
  }

  predicate SomeRecHolds(rs: seq<Rec>, v: Bytes) {
    exists j :: 0 <= j < |rs| && RecHolds(rs[j], v)
  }

  predicate WantedRow(c: Cond, row: Row) {
    (c.origin.Some? ==> row.attr.origin == c.origin.value) && SomeRecHolds(c.records, row.attr.value)
  }

  ghost predicate HasWantedRow(db: Database, c: Cond, job: Job) {
    var t := TableOf(c.attr);
    t in db.tables && exists row :: row in db.tables[t] && row.jobid == job.jobid && WantedRow(c, row)
  }

  /** Every condition has a stored row of the required origin that satisfies one of
      its records. */
  ghost predicate Wanted(db: Database, cs: seq<Cond>, peer: Option<Bytes>, job: Job) {
    && job in db.jobs && Owned(db, peer, job)
    && forall i :: 0 <= i < |cs| ==>
      if IsJobId(cs[i].attr) then SomeRecHolds(cs[i].records, job.dgJobid) else HasWantedRow(db, cs[i], job)
  }

  // ----- what a caller can check ------------------------------------------------------------------

  /** A comparison carries string bounds, and on an attribute they fit the index. */
  predicate Valued(c: Cond, r: Rec) {
    r.op == EXISTS
    || (&& r.op != UNDEF && StringOf(r.value).Some? && (r.op == WITHIN ==> StringOf(r.value2).Some?)
        && (!IsJobId(c.attr) ==> BoundsFitIndex(r.op, Bound(r.value), Bound(r.value2), INDEX_LENGTH)))
  }

  predicate AllValued(c: Cond) {
    forall j :: 0 <= j < |c.records| ==> Valued(c, c.records[j])
  }

  /** There are records, and EXISTS is not mixed with comparisons. */
  predicate NotMixed(c: Cond) {
    c.records != []
    && ((forall j :: 0 <= j < |c.records| ==> c.records[j].op == EXISTS)
        || (forall j :: 0 <= j < |c.records| ==> c.records[j].op != EXISTS))
  }

  predicate DistinctAttrs(cs: seq<Cond>) {
    forall i, j :: 0 <= i < j < |cs| && !IsJobId(cs[i].attr) && !IsJobId(cs[j].attr) ==>
      TableOf(cs[i].attr) != TableOf(cs[j].attr)
  }

  /** The tables the conditions name hold string values. */
  ghost predicate StringRows(db: Database, cs: seq<Cond>) {
    forall t, row :: Touches(cs, t) && t in db.tables && row in db.tables[t] ==> !row.attr.binary
  }

  // ----- one record -----------------------------------------------------------------------------------

  /** The SQL operator compares as the query operator asks. */
  lemma GetOpCompares(op: QueryOp, v: Bytes, lo: Bytes, hi: Bytes)
    requires op != EXISTS && op != UNDEF
    ensures GetOp(op).Some? && (SqlCompare(GetOp(op).value, v, lo, hi) <==> Compare(op, v, lo, hi))
  {
    LexAntisymmetric(v, lo);
  }

  lemma RecAtomOnIndex(c: Cond, r: Rec, row: Row)
    requires Valued(c, r) && r.op != EXISTS && !IsJobId(c.attr) && !row.attr.binary
    ensures RecAtom(c, r).Some?
    ensures Compares(RecAtom(c, r).value, IndexValue(row)) <==> RecHolds(r, row.attr.value)
  {
    BoundsFitIsEnough(r.op, row.attr.value, Bound(r.value), Bound(r.value2), INDEX_LENGTH);
    GetOpCompares(r.op, IndexValue(row),
                  Truncate(Bound(r.value), INDEX_LENGTH), Truncate(Bound(r.value2), INDEX_LENGTH));
  }

  lemma RecAtomOnJob(c: Cond, r: Rec, v: Bytes)
    requires Valued(c, r) && r.op != EXISTS && IsJobId(c.attr)
    ensures RecAtom(c, r).Some?
    ensures Compares(RecAtom(c, r).value, v) <==> RecHolds(r, v)
  {
    GetOpCompares(r.op, v, Bound(r.value), Bound(r.value2));
  }

  predicate SomeComparisonHolds(rs: seq<Rec>, v: Bytes) {
    exists j :: 0 <= j < |rs| && rs[j].op != EXISTS && RecHolds(rs[j], v)
  }

  lemma SomeComparisonCons(rs: seq<Rec>, v: Bytes)
    requires rs != []
    ensures SomeComparisonHolds(rs, v) <==>
      (rs[0].op != EXISTS && RecHolds(rs[0], v)) || SomeComparisonHolds(rs[1..], v)
  {
    assert forall j :: 1 <= j < |rs| ==> rs[j] == rs[1..][j - 1];
    if SomeComparisonHolds(rs[1..], v) {
      var j :| 0 <= j < |rs[1..]| && rs[1..][j].op != EXISTS && RecHolds(rs[1..][j], v);
      assert rs[j + 1] == rs[1..][j];
    }
  }

  lemma SomeComparesCons(a: Atom, atoms: seq<Atom>, v: Bytes)
    ensures SomeCompares([a] + atoms, v) <==> Compares(a, v) || SomeCompares(atoms, v)
  {
    var all := [a] + atoms;
    assert forall k :: 1 <= k < |all| ==> all[k] == atoms[k - 1];
    if Compares(a, v) { assert Compares(all[0], v); }
    if SomeCompares(atoms, v) {
      var k :| 0 <= k < |atoms| && Compares(atoms[k], v);
      assert Compares(all[k + 1], v);
    }
  }

  /** full is what row stores for the attribute, or the job id; shown is what the
      statement compares. */
  lemma {:induction false} AtomsHold(c: Cond, rs: seq<Rec>, shown: Bytes, full: Bytes)
    requires forall j :: 0 <= j < |rs| ==> Valued(c, rs[j])
    requires forall r :: Valued(c, r) && r.op != EXISTS ==>
      RecAtom(c, r).Some? && (Compares(RecAtom(c, r).value, shown) <==> RecHolds(r, full))
    ensures Atoms(c, rs).Some?
    ensures SomeCompares(Atoms(c, rs).value, shown) <==> SomeComparisonHolds(rs, full)
  {
    if rs != [] {
      AtomsHold(c, rs[1..], shown, full);
      SomeComparisonCons(rs, full);
      assert Valued(c, rs[0]);
      if rs[0].op != EXISTS {
        SomeComparesCons(RecAtom(c, rs[0]).value, Atoms(c, rs[1..]).value, shown);
      }
    }
  }

  lemma CondHoldsOnRow(c: Cond, row: Row)
    requires AllValued(c) && !IsJobId(c.attr) && !row.attr.binary
    ensures CondAtoms(c).Some?
    ensures SomeCompares(CondAtoms(c).value, IndexValue(row)) <==> SomeComparisonHolds(c.records, row.attr.value)
  {
    forall r | Valued(c, r) && r.op != EXISTS
      ensures RecAtom(c, r).Some? && (Compares(RecAtom(c, r).value, IndexValue(row)) <==> RecHolds(r, row.attr.value))
    {
      RecAtomOnIndex(c, r, row);
    }
    AtomsHold(c, c.records, IndexValue(row), row.attr.value);
  }

  lemma CondHoldsOnJob(c: Cond, v: Bytes)
    requires AllValued(c) && IsJobId(c.attr)
    ensures CondAtoms(c).Some?
    ensures SomeCompares(CondAtoms(c).value, v) <==> SomeComparisonHolds(c.records, v)
  {
    forall r | Valued(c, r) && r.op != EXISTS
      ensures RecAtom(c, r).Some? && (Compares(RecAtom(c, r).value, v) <==> RecHolds(r, v))
    {
      RecAtomOnJob(c, r, v);
    }
    AtomsHold(c, c.records, v, v);
  }

  predicate Compared(c: Cond) {
    exists j :: 0 <= j < |c.records| && c.records[j].op != EXISTS
  }

  /** The comparisons alone, or anything without them, against all the records. */
  lemma RecordsAgreeIff(c: Cond, v: Bytes)
    ensures (!Compared(c) || SomeComparisonHolds(c.records, v) <==> SomeRecHolds(c.records, v))
            <==> (c.records != [] && (NotMixed(c) || SomeComparisonHolds(c.records, v)))
  {
    var rs := c.records;
    if rs != [] && !Compared(c) {
      assert rs[0].op == EXISTS && RecHolds(rs[0], v);
    }
    if SomeComparisonHolds(rs, v) {
      var j :| 0 <= j < |rs| && rs[j].op != EXISTS && RecHolds(rs[j], v);
      assert RecHolds(rs[j], v);
    }
    if Compared(c) && !NotMixed(c) {
      var j :| 0 <= j < |rs| && rs[j].op == EXISTS;
      assert RecHolds(rs[j], v);
    }
  }

  predicate OriginFits(c: Cond, row: Row) {
    c.origin.Some? ==> row.attr.origin == c.origin.value
  }

  /** As compiled, EXISTS is dropped wherever a comparison stands beside it, and no
      records at all count as EXISTS: a compiled condition treats a row as it was asked
      to if and only if the origin decides, or there are records and they are not mixed
      or one of the comparisons holds. */
  lemma ExistsIsDroppedBesideComparisons(c: Cond, row: Row)
    requires AllValued(c) && !IsJobId(c.attr) && !row.attr.binary
    ensures CondAtoms(c).Some?
    ensures (RowMatches(c, row) <==> WantedRow(c, row)) <==>
      || !OriginFits(c, row)
      || (c.records != [] && (NotMixed(c) || SomeComparisonHolds(c.records, row.attr.value)))
  {
    CondHoldsOnRow(c, row);
    AtomsEmptyIff(c, c.records);
    RecordsAgreeIff(c, row.attr.value);
  }

  /** The same for conditions on the job id. */
  lemma ExistsIsDroppedOnJobId(c: Cond, job: Job)
    requires AllValued(c) && IsJobId(c.attr)
    ensures CondAtoms(c).Some?
    ensures (JobMatches(c, job) <==> SomeRecHolds(c.records, job.dgJobid)) <==>
      c.records != [] && (NotMixed(c) || SomeComparisonHolds(c.records, job.dgJobid))
  {
    CondHoldsOnJob(c, job.dgJobid);
    AtomsEmptyIff(c, c.records);
    RecordsAgreeIff(c, job.dgJobid);
  }

  // ----- the whole query --------------------------------------------------------------------------------

  /** What is asked of each condition by itself, and of their order. */
  predicate Sound(cs: seq<Cond>) {
    WellShaped(cs) && forall i :: 0 <= i < |cs| ==> AllValued(cs[i]) && NotMixed(cs[i])
  }

  predicate Checked(cs: seq<Cond>) {
    Sound(cs) && DistinctAttrs(cs)
  }

  predicate OnTable(cs: seq<Cond>, i: int, t: Bytes) {
    0 <= i < |cs| && !IsJobId(cs[i].attr) && TableOf(cs[i].attr) == t
  }

  ghost predicate WantedByAll(cs: seq<Cond>, t: Bytes, row: Row) {
    forall i :: OnTable(cs, i, t) ==> WantedRow(cs[i], row)
  }

  lemma SoundCompiles(cs: seq<Cond>)
    requires Sound(cs)
    ensures Compilable(cs)
  {
    forall i | 0 <= i < |cs| ensures CondAtoms(cs[i]).Some? {
      if IsJobId(cs[i].attr) {
        CondHoldsOnJob(cs[i], []);
      } else {
        CondHoldsOnRow(cs[i], Row([], AttrVal([], [], false, 0, None, 0)));
      }
    }
  }

  /** A witness row is one that every condition on its table wants. */
  lemma WitnessIsWantedByAll(db: Database, cs: seq<Cond>, job: Job, t: Bytes, row: Row)
    requires Sound(cs) && Compilable(cs) && t in db.tables && row in db.tables[t] && !row.attr.binary
    ensures IsWitness(db, cs, job, t, row) <==> row.jobid == job.jobid && WantedByAll(cs, t, row)
  {
    forall i | OnTable(cs, i, t) ensures RowMatches(cs[i], row) <==> WantedRow(cs[i], row) {
      ExistsIsDroppedBesideComparisons(cs[i], row);
    }
  }

  lemma JobIdsAgree(cs: seq<Cond>, job: Job)
    requires Sound(cs) && Compilable(cs)
    ensures forall i :: 0 <= i < |cs| && IsJobId(cs[i].attr) ==>
      (JobMatches(cs[i], job) <==> SomeRecHolds(cs[i].records, job.dgJobid))
  {
    forall i | 0 <= i < |cs| && IsJobId(cs[i].attr)
      ensures JobMatches(cs[i], job) <==> SomeRecHolds(cs[i].records, job.dgJobid)
    {
      ExistsIsDroppedOnJobId(cs[i], job);
    }
  }

  /** What the join selects is always wanted. */
  lemma GroupedIsWanted(db: Database, cs: seq<Cond>, peer: Option<Bytes>, job: Job)
    requires Sound(cs) && Compilable(cs) && StringRows(db, cs) && Grouped(db, cs, peer, job)
    ensures Wanted(db, cs, peer, job)
  {
    JobIdsAgree(cs, job);
    forall i | 0 <= i < |cs| && !IsJobId(cs[i].attr) ensures HasWantedRow(db, cs[i], job) {
      var t := TableOf(cs[i].attr);
      assert Touches(cs, t) && OnTable(cs, i, t);
      var row :| IsWitness(db, cs, job, t, row);
      WitnessIsWantedByAll(db, cs, job, t, row);
    }
  }

  ghost predicate HasCommonRow(db: Database, cs: seq<Cond>, job: Job, t: Bytes) {
    t in db.tables && exists row :: row in db.tables[t] && row.jobid == job.jobid && WantedByAll(cs, t, row)
  }

  /** What is wanted is selected if the conditions on each table share a row. */
  lemma WantedIsGrouped(db: Database, cs: seq<Cond>, peer: Option<Bytes>, job: Job)
    requires Sound(cs) && Compilable(cs) && StringRows(db, cs) && Wanted(db, cs, peer, job)
    requires forall t :: Touches(cs, t) ==> HasCommonRow(db, cs, job, t)
    ensures Grouped(db, cs, peer, job)
  {
    JobIdsAgree(cs, job);
    forall t | Touches(cs, t) ensures exists row :: IsWitness(db, cs, job, t, row) {
      assert HasCommonRow(db, cs, job, t);
      var row :| row in db.tables[t] && row.jobid == job.jobid && WantedByAll(cs, t, row);
      WitnessIsWantedByAll(db, cs, job, t, row);
    }
  }

  lemma GroupedIffWanted(db: Database, cs: seq<Cond>, peer: Option<Bytes>, job: Job)
    requires Checked(cs) && Compilable(cs) && StringRows(db, cs)
    ensures Grouped(db, cs, peer, job) <==> Wanted(db, cs, peer, job)
  {
    if Grouped(db, cs, peer, job) {
      GroupedIsWanted(db, cs, peer, job);
    }
    if Wanted(db, cs, peer, job) {
      forall t | Touches(cs, t) ensures HasCommonRow(db, cs, job, t) {
        var i :| 0 <= i < |cs| && !IsJobId(cs[i].attr) && TableOf(cs[i].attr) == t;
        assert HasWantedRow(db, cs[i], job);
        var row :| row in db.tables[t] && row.jobid == job.jobid && WantedRow(cs[i], row);
        assert forall j :: OnTable(cs, j, t) ==> j == i;
        assert WantedByAll(cs, t, row);
      }
      WantedIsGrouped(db, cs, peer, job);
    }
  }

  /** Query compilation preserves meaning: for conditions on different attributes,
      with a jobId comparison in front if at all, EXISTS not mixed with comparisons
      and bounds that fit the index, the statement is well formed and selects exactly
      the wanted jobs, judged on full values. */
  lemma CompilationPreservesMeaning(db: Database, cs: seq<Cond>, q: Query, job: Job)
    requires Checked(cs) && StringRows(db, cs)
    requires Compilable(cs) && q.tokens == BlocksTokens(Blocks(cs))
    requires forall t :: t in q.tables <==> Touches(cs, t)
    ensures ParseClause(q.tokens).Some?
    ensures Selects(db, q, ParseClause(q.tokens).value, job) <==> Wanted(db, cs, q.peer, job)
  {
    CompiledMeaning(db, cs, q, job);
    GroupedIffWanted(db, cs, q.peer, job);
  }

  /** The builder, run on checked conditions, yields a statement that selects the
      wanted jobs in every database. */
  method CompileQuery(cs: seq<Cond>, peer: Option<Bytes>) returns (q: Query)
    requires Checked(cs)
    ensures q.peer == peer && ParseClause(q.tokens).Some?
    ensures forall db, job :: StringRows(db, cs) ==>
      (Selects(db, q, ParseClause(q.tokens).value, job) <==> Wanted(db, cs, peer, job))
  {
    SoundCompiles(cs);
    WellFormedIffShaped(cs);
    var r := BuildQuery(cs, peer);
    q := r.value;
    forall db, job | StringRows(db, cs)
      ensures Selects(db, q, ParseClause(q.tokens).value, job) <==> Wanted(db, cs, peer, job)
    {
      CompilationPreservesMeaning(db, cs, q, job);
    }
  }
}
