/** Queries whose statements do not mean what they ask for. */
module QueryInstances {
  import opened Text
  import opened AttrValues
  import opened SqlClause
  import opened KnownAttrs
  import opened IndexQuery
  import opened IndexMeaning
  import opened IndexExactness
  import opened SharedTables

  lemma ShortNameIsNotJobId(b: byte)
    ensures !IsJobId([b])
  {
    assert |TableOf([b])| == 1;
    assert |ATTR_JOBID| > 1;
    assert |TableOf(ATTR_JOBID)| == |ATTR_JOBID|;
  }

  // A job j with the values 1 and 2 of the attribute x, and a query for both.
  const X: Bytes := [120]
  const JOB: Job := Job([106], [106], [117], [112])

  function ValueRow(v: byte): Row {
    Row([106], AttrVal(X, [v], false, ORIG_USER, None, 0))
  }

  function EqualsCond(v: byte): Cond {
    Cond(X, None, [Rec(EQUAL, Some(Str([v])), None)])
  }

  lemma EqualsCondMatches(v: byte, w: byte)
    ensures !IsJobId(X) && TableOf(X) == X && CondAtoms(EqualsCond(v)).Some?
    ensures RowMatches(EqualsCond(v), ValueRow(w)) <==> v == w
    ensures WantedRow(EqualsCond(v), ValueRow(w)) <==> v == w
  {
    ShortNameIsNotJobId(120);
    var c := EqualsCond(v);
    ExistsIsDroppedBesideComparisons(c, ValueRow(w));
    assert RecHolds(c.records[0], [w]) <==> v == w;
  }

  const BOTH: seq<Cond> := [EqualsCond(49), EqualsCond(50)]
  const STORED: Database := Database({JOB}, {}, map[X := {ValueRow(49), ValueRow(50)}])

  lemma NoSharedWitness(row: Row)
    ensures !IsWitness(STORED, BOTH, JOB, X, row)
  {
    EqualsCondMatches(49, 50);
    EqualsCondMatches(50, 49);
    assert BOTH[0] == EqualsCond(49) && BOTH[1] == EqualsCond(50);
  }

  lemma BothAreWanted()
    ensures Compilable(BOTH) && WellShaped(BOTH) && Touches(BOTH, X)
    ensures TextDatabase(STORED, BOTH) && Wanted(STORED, BOTH, None, JOB)
  {
    EqualsCondMatches(49, 49);
    EqualsCondMatches(50, 50);
    assert StartsAt(BOTH, 0);
    assert Touches(BOTH, X) by { assert TableOf(BOTH[0].attr) == X; }
    assert WantedRow(BOTH[0], ValueRow(49)) && WantedRow(BOTH[1], ValueRow(50));
  }

  lemma OneDoesNotImplyTwo(v: byte, w: byte)
    requires v != w && v != NUL
    ensures RowSatisfiable(EqualsCond(v)) && !Implies(EqualsCond(v), EqualsCond(w))
  {
    EqualsCondMatches(v, v);
    EqualsCondMatches(w, v);
    assert TextRow(ValueRow(v));
  }

  lemma NoStrongestOfTwo(c: Cond, d: Cond, t: Bytes)
    requires !IsJobId(c.attr) && !IsJobId(d.attr) && TableOf(c.attr) == t == TableOf(d.attr)
    requires !Implies(c, d) && !Implies(d, c)
    ensures !HasStrongest([c, d], t)
  {
    assert OnTable([c, d], 0, t) && OnTable([c, d], 1, t);
  }

  lemma EqualsIsSound(v: byte)
    ensures AllValued(EqualsCond(v)) && NotMixed(EqualsCond(v))
  {
    ShortNameIsNotJobId(120);
  }

  /** The two conditions are sound, */
  lemma BothAreSound()
    ensures Sound(BOTH)
  {
    BothAreWanted();
    EqualsIsSound(49);
    EqualsIsSound(50);
  }

  /** can each be met, */
  lemma BothAreSatisfiable()
    ensures Satisfiable(BOTH)
  {
    ShortNameIsNotJobId(120);
    OneDoesNotImplyTwo(49, 50);
    OneDoesNotImplyTwo(50, 49);
    assert JobIdsHold(BOTH, []);
  }

  /** but neither implies the other. */
  lemma BothHaveNoStrongest()
    ensures !HasStrongest(BOTH, X)
  {
    EqualsCondMatches(49, 50);
    OneDoesNotImplyTwo(49, 50);
    OneDoesNotImplyTwo(50, 49);
    NoStrongestOfTwo(EqualsCond(49), EqualsCond(50), X);
  }

  /** So the statement for both does not mean what they ask for. */
  lemma BothAreNotExact(q: Query)
    requires Compiled(BOTH, q)
    ensures !Exact(BOTH, q)
  {
    BothAreSound();
    BothAreSatisfiable();
    BothAreWanted();
    BothHaveNoStrongest();
    ExactIffStrongest(BOTH, q);
  }

  /** Two conditions on one attribute must be met by one row: a job whose values
      1 and 2 are both asked for is wanted, yet the statement does not select it. */
  lemma SharedTableNeedsOneRow(q: Query)
    requires Compiled(BOTH, q) && q.peer == None
    ensures ParseClause(q.tokens).Some? && TextDatabase(STORED, BOTH)
    ensures Wanted(STORED, BOTH, None, JOB) && !Selects(STORED, q, ParseClause(q.tokens).value, JOB)
  {
    BothAreWanted();
    forall row ensures !IsWitness(STORED, BOTH, JOB, X, row) {
      NoSharedWitness(row);
    }
    CompiledMeaning(STORED, BOTH, q, JOB);
  }

  // ----- EXISTS beside a comparison -----------------------------------------------------------------------------

  // Any value of x, or the value 1; and a job whose value is 2.
  const MIXED: Cond := Cond(X, None, [Rec(EXISTS, None, None), Rec(EQUAL, Some(Str([49])), None)])
  const OTHER: Database := Database({JOB}, {}, map[X := {ValueRow(50)}])

  lemma MixedRow()
    ensures !IsJobId(X) && TableOf(X) == X && CondAtoms(MIXED).Some?
    ensures WantedRow(MIXED, ValueRow(50)) && !RowMatches(MIXED, ValueRow(50))
  {
    ShortNameIsNotJobId(120);
    assert RecHolds(MIXED.records[0], [50]) && MIXED.records[1].op != EXISTS;
    assert !SomeComparisonHolds(MIXED.records, [50]);
    ExistsIsDroppedBesideComparisons(MIXED, ValueRow(50));
  }

  lemma MixedIsWanted()
    ensures Compilable([MIXED]) && WellShaped([MIXED]) && Touches([MIXED], X) && Wanted(OTHER, [MIXED], None, JOB)
  {
    MixedRow();
    assert StartsAt([MIXED], 0);
    assert Touches([MIXED], X) by { assert TableOf([MIXED][0].attr) == X; }
  }

  /** EXISTS beside a comparison is dropped: the job is wanted, yet not selected. */
  lemma MixedExistsIsLost(q: Query)
    requires Compiled([MIXED], q) && q.peer == None
    ensures ParseClause(q.tokens).Some?
    ensures Wanted(OTHER, [MIXED], None, JOB) && !Selects(OTHER, q, ParseClause(q.tokens).value, JOB)
  {
    MixedIsWanted();
    MixedRow();
    forall row ensures !IsWitness(OTHER, [MIXED], JOB, X, row) {
      assert [MIXED][0] == MIXED;
    }
    CompiledMeaning(OTHER, [MIXED], q, JOB);
  }

  // ----- a jobId comparison in second place ------------------------------------------------------------------------

  const JOBID_IS: Cond := Cond(ATTR_JOBID, None, [Rec(EQUAL, Some(Str([106])), None)])
  const SECOND: seq<Cond> := [EqualsCond(49), JOBID_IS]

  lemma SecondIsNotShaped()
    ensures Compilable(SECOND) && !WellShaped(SECOND)
  {
    EqualsCondMatches(49, 49);
    assert IsJobId(ATTR_JOBID);
    CondHoldsOnJob(JOBID_IS, []);
    assert JOBID_IS.records[0].op != EXISTS;
    assert HasText(SECOND[0]) && HasText(SECOND[1]);
  }

  /** A jobId comparison behind another condition is a syntax error. */
  lemma LateJobIdIsAnError(q: Query)
    requires Compiled(SECOND, q)
    ensures ParseClause(q.tokens).None?
  {
    SecondIsNotShaped();
    WellFormedIffShaped(SECOND);
  }
}
