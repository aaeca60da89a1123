/** Which jobs a statement selects, against those the query asks for, in every
    database: exactly when the two agree. The join looks for one row that meets all
    conditions on its table as compiled, the query for a row for each as asked. */
module SharedTables {
  import opened Text
  import opened AttrValues
  import opened SqlClause
  import opened IndexQuery
  import opened IndexMeaning
  import opened IndexExactness

  predicate TextRow(row: Row) {
    !row.attr.binary && NulFree(row.attr.value)
  }

  /** Job ids and the values of the tables named are C strings. */
  ghost predicate TextDatabase(db: Database, cs: seq<Cond>) {
    && (forall job :: job in db.jobs ==> NulFree(job.dgJobid))
    && (forall t, row :: Touches(cs, t) && t in db.tables && row in db.tables[t] ==> TextRow(row))
  }

  /** The statement of a list of conditions. */
  ghost predicate Compiled(cs: seq<Cond>, q: Query) {
    Compilable(cs) && q.tokens == BlocksTokens(Blocks(cs)) && forall t :: t in q.tables <==> Touches(cs, t)
  }

  /** The statement has the meaning of the query in every database. */
  ghost predicate Exact(cs: seq<Cond>, q: Query) {
    forall db, job :: TextDatabase(db, cs) && ParseClause(q.tokens).Some? ==>
      (Selects(db, q, ParseClause(q.tokens).value, job) <==> Wanted(db, cs, q.peer, job))
  }

  // ----- what the conditions say about a row and a job id --------------------------------------------------

  /** As compiled. */
  ghost predicate MatchesAll(cs: seq<Cond>, t: Bytes, row: Row)
    requires Compilable(cs)
  {
    forall i :: OnTable(cs, i, t) ==> RowMatches(cs[i], row)
  }

  predicate JobIdsMatch(cs: seq<Cond>, v: Bytes)
    requires Compilable(cs)
  {
    forall i :: 0 <= i < |cs| && IsJobId(cs[i].attr) ==> JobMatches(cs[i], JobOf(v))
  }

  function JobOf(v: Bytes): Job {
    Job([], v, [], [])
  }

  /** As asked. */
  predicate JobIdsHold(cs: seq<Cond>, v: Bytes) {
    forall i :: 0 <= i < |cs| && IsJobId(cs[i].attr) ==> SomeRecHolds(cs[i].records, v)
  }

  ghost predicate RowSatisfiable(c: Cond) {
    exists row :: TextRow(row) && WantedRow(c, row)
  }

  /** Each condition on an attribute can be met, and those on the job id together. */
  ghost predicate Satisfiable(cs: seq<Cond>) {
    && (exists v :: NulFree(v) && JobIdsHold(cs, v))
    && (forall i :: 0 <= i < |cs| && !IsJobId(cs[i].attr) ==> RowSatisfiable(cs[i]))
  }

  ghost predicate TableSelectable(cs: seq<Cond>, t: Bytes)
    requires Compilable(cs)
  {
    exists row :: TextRow(row) && MatchesAll(cs, t, row)
  }

  /** The statement can select something. */
  ghost predicate Selectable(cs: seq<Cond>)
    requires Compilable(cs)
  {
    && (exists v :: NulFree(v) && JobIdsMatch(cs, v))
    && (forall t :: Touches(cs, t) ==> TableSelectable(cs, t))
  }

  /** A row that matches as compiled is what every condition on its table asks for. */
  ghost predicate MatchedIsWanted(cs: seq<Cond>, t: Bytes)
    requires Compilable(cs)
  {
    forall row :: TextRow(row) && MatchesAll(cs, t, row) ==> WantedByAll(cs, t, row)
  }

  ghost predicate Decides(cs: seq<Cond>, t: Bytes, c: Cond)
    requires Compilable(cs)
  {
    forall row :: TextRow(row) && WantedRow(c, row) ==> MatchesAll(cs, t, row)
  }

  /** What one of the conditions on the table asks for matches all of them. */
  ghost predicate HasDecider(cs: seq<Cond>, t: Bytes)
    requires Compilable(cs)
  {
    exists i :: OnTable(cs, i, t) && Decides(cs, t, cs[i])
  }

  ghost predicate SameJobIds(cs: seq<Cond>)
    requires Compilable(cs)
  {
    forall v :: NulFree(v) ==> (JobIdsMatch(cs, v) <==> JobIdsHold(cs, v))
  }

  ghost predicate Faithful(cs: seq<Cond>)
    requires Compilable(cs)
  {
    SameJobIds(cs) && forall t :: Touches(cs, t) ==> MatchedIsWanted(cs, t) && HasDecider(cs, t)
  }

  // ----- enough --------------------------------------------------------------------------------------------------

  ghost predicate HasMatch(db: Database, cs: seq<Cond>, job: Job, t: Bytes)
    requires Compilable(cs)
  {
    t in db.tables && exists row :: row in db.tables[t] && row.jobid == job.jobid && MatchesAll(cs, t, row)
  }

  lemma WitnessMatchesAll(db: Database, cs: seq<Cond>, job: Job, t: Bytes, row: Row)
    requires Compilable(cs)
    ensures IsWitness(db, cs, job, t, row) <==>
      t in db.tables && row in db.tables[t] && row.jobid == job.jobid && MatchesAll(cs, t, row)
  {
    if IsWitness(db, cs, job, t, row) {
      forall i | OnTable(cs, i, t) ensures RowMatches(cs[i], row) {}
    }
    if MatchesAll(cs, t, row) {
      forall i | 0 <= i < |cs| && !IsJobId(cs[i].attr) && TableOf(cs[i].attr) == t ensures RowMatches(cs[i], row) {
        assert OnTable(cs, i, t);
      }
    }
  }

  lemma GroupedMeans(db: Database, cs: seq<Cond>, peer: Option<Bytes>, job: Job)
    requires Compilable(cs)
    ensures Grouped(db, cs, peer, job) <==>
      && job in db.jobs && Owned(db, peer, job) && JobIdsMatch(cs, job.dgJobid)
      && forall t :: Touches(cs, t) ==> HasMatch(db, cs, job, t)
  {
    forall i | 0 <= i < |cs| && IsJobId(cs[i].attr)
      ensures JobMatches(cs[i], job) <==> JobMatches(cs[i], JobOf(job.dgJobid))
    {}
    forall t ensures (exists row :: IsWitness(db, cs, job, t, row)) <==> HasMatch(db, cs, job, t) {
      forall row
        ensures IsWitness(db, cs, job, t, row) <==>
          t in db.tables && row in db.tables[t] && row.jobid == job.jobid && MatchesAll(cs, t, row)
      {
        WitnessMatchesAll(db, cs, job, t, row);
      }
    }
  }

  lemma WantedIsSatisfiable(db: Database, cs: seq<Cond>, peer: Option<Bytes>, job: Job)
    requires TextDatabase(db, cs) && Wanted(db, cs, peer, job)
    ensures Satisfiable(cs) && JobIdsHold(cs, job.dgJobid)
  {
    assert JobIdsHold(cs, job.dgJobid);
    forall i | 0 <= i < |cs| && !IsJobId(cs[i].attr) ensures RowSatisfiable(cs[i]) {
      assert HasWantedRow(db, cs[i], job) && Touches(cs, TableOf(cs[i].attr));
    }
  }

  lemma GroupedIsSelectable(db: Database, cs: seq<Cond>, peer: Option<Bytes>, job: Job)
    requires Compilable(cs) && TextDatabase(db, cs) && Grouped(db, cs, peer, job)
    ensures Selectable(cs)
  {
    GroupedMeans(db, cs, peer, job);
    forall t | Touches(cs, t) ensures TableSelectable(cs, t) {
      assert HasMatch(db, cs, job, t);
      var row :| row in db.tables[t] && row.jobid == job.jobid && MatchesAll(cs, t, row);
      assert TextRow(row);
    }
  }

  lemma MatchIsWanted(db: Database, cs: seq<Cond>, job: Job, i: int)
    requires Compilable(cs) && TextDatabase(db, cs) && 0 <= i < |cs| && !IsJobId(cs[i].attr)
    requires MatchedIsWanted(cs, TableOf(cs[i].attr)) && HasMatch(db, cs, job, TableOf(cs[i].attr))
    ensures HasWantedRow(db, cs[i], job)
  {
    var t := TableOf(cs[i].attr);
    var row :| row in db.tables[t] && row.jobid == job.jobid && MatchesAll(cs, t, row);
    assert Touches(cs, t) && TextRow(row) && OnTable(cs, i, t);
    assert WantedByAll(cs, t, row);
  }

  lemma DeciderMatches(db: Database, cs: seq<Cond>, peer: Option<Bytes>, job: Job, t: Bytes)
    requires Compilable(cs) && TextDatabase(db, cs) && Touches(cs, t) && HasDecider(cs, t)
    requires Wanted(db, cs, peer, job)
    ensures HasMatch(db, cs, job, t)
  {
    var i :| OnTable(cs, i, t) && Decides(cs, t, cs[i]);
    assert HasWantedRow(db, cs[i], job);
    var row :| row in db.tables[t] && row.jobid == job.jobid && WantedRow(cs[i], row);
    assert TextRow(row);
  }

  lemma FaithfulIsEnough(db: Database, cs: seq<Cond>, peer: Option<Bytes>, job: Job)
    requires Compilable(cs) && TextDatabase(db, cs) && Faithful(cs)
    ensures Grouped(db, cs, peer, job) <==> Wanted(db, cs, peer, job)
  {
    GroupedMeans(db, cs, peer, job);
    if Grouped(db, cs, peer, job) {
      assert JobIdsHold(cs, job.dgJobid);
      forall i | 0 <= i < |cs| && !IsJobId(cs[i].attr) ensures HasWantedRow(db, cs[i], job) {
        assert Touches(cs, TableOf(cs[i].attr));
        MatchIsWanted(db, cs, job, i);
      }
    }
    if Wanted(db, cs, peer, job) {
      WantedIsSatisfiable(db, cs, peer, job);
      forall t | Touches(cs, t) ensures HasMatch(db, cs, job, t) {
        DeciderMatches(db, cs, peer, job, t);
      }
    }
  }

  // ----- needed ---------------------------------------------------------------------------------------------------

  // Databases with one job, of id v, and some text rows of it.

  type Rows = map<Bytes, set<Row>>

  ghost predicate PlainRows(rows: Rows) {
    forall t, row :: t in rows && row in rows[t] ==> TextRow(row) && row.jobid == []
  }

  function Built(peer: Option<Bytes>, v: Bytes, rows: Rows): Database {
    Database({JobOf(v)}, if peer.Some? then {User([], peer.value)} else {}, rows)
  }

  ghost predicate TableMatches(cs: seq<Cond>, rows: Rows, t: Bytes)
    requires Compilable(cs)
  {
    t in rows && exists row :: row in rows[t] && MatchesAll(cs, t, row)
  }

  ghost predicate RowsMatch(cs: seq<Cond>, rows: Rows)
    requires Compilable(cs)
  {
    forall t :: Touches(cs, t) ==> TableMatches(cs, rows, t)
  }

  ghost predicate CondWanted(c: Cond, rows: Rows) {
    TableOf(c.attr) in rows && exists row :: row in rows[TableOf(c.attr)] && WantedRow(c, row)
  }

  ghost predicate RowsWanted(cs: seq<Cond>, rows: Rows) {
    forall i :: 0 <= i < |cs| && !IsJobId(cs[i].attr) ==> CondWanted(cs[i], rows)
  }

  lemma BuiltIsOwned(peer: Option<Bytes>, v: Bytes, rows: Rows)
    ensures Owned(Built(peer, v, rows), peer, JobOf(v))
  {
    if peer.Some? { assert User([], peer.value) in Built(peer, v, rows).users; }
  }

  lemma BuiltIsText(cs: seq<Cond>, peer: Option<Bytes>, v: Bytes, rows: Rows)
    requires NulFree(v) && PlainRows(rows)
    ensures TextDatabase(Built(peer, v, rows), cs)
  {
  }

  lemma BuiltGrouped(cs: seq<Cond>, peer: Option<Bytes>, v: Bytes, rows: Rows)
    requires Compilable(cs) && PlainRows(rows)
    ensures Grouped(Built(peer, v, rows), cs, peer, JobOf(v)) <==> JobIdsMatch(cs, v) && RowsMatch(cs, rows)
  {
    var db := Built(peer, v, rows);
    GroupedMeans(db, cs, peer, JobOf(v));
    BuiltIsOwned(peer, v, rows);
    forall t ensures HasMatch(db, cs, JobOf(v), t) <==> TableMatches(cs, rows, t) {}
  }

  lemma BuiltWanted(cs: seq<Cond>, peer: Option<Bytes>, v: Bytes, rows: Rows)
    requires PlainRows(rows)
    ensures Wanted(Built(peer, v, rows), cs, peer, JobOf(v)) <==> JobIdsHold(cs, v) && RowsWanted(cs, rows)
  {
    var db := Built(peer, v, rows);
    BuiltIsOwned(peer, v, rows);
    forall i | 0 <= i < |cs| ensures HasWantedRow(db, cs[i], JobOf(v)) <==> CondWanted(cs[i], rows) {}
  }

  /** The two meanings agree on these databases. */
  ghost predicate ExactOnRows(cs: seq<Cond>)
    requires Compilable(cs)
  {
    forall v, rows :: NulFree(v) && PlainRows(rows) ==>
      (JobIdsMatch(cs, v) && RowsMatch(cs, rows) <==> JobIdsHold(cs, v) && RowsWanted(cs, rows))
  }

  lemma ExactGivesRows(cs: seq<Cond>, q: Query)
    requires Compiled(cs, q) && WellShaped(cs) && Exact(cs, q)
    ensures ExactOnRows(cs)
  {
    forall v, rows | NulFree(v) && PlainRows(rows)
      ensures JobIdsMatch(cs, v) && RowsMatch(cs, rows) <==> JobIdsHold(cs, v) && RowsWanted(cs, rows)
    {
      var db := Built(q.peer, v, rows);
      BuiltIsText(cs, q.peer, v, rows);
      BuiltGrouped(cs, q.peer, v, rows);
      BuiltWanted(cs, q.peer, v, rows);
      CompiledMeaning(db, cs, q, JobOf(v));
    }
  }

  lemma OfTheJob(cs: seq<Cond>, t: Bytes, row: Row)
    requires Compilable(cs)
    ensures TextRow(row.(jobid := [])) == TextRow(row)
    ensures MatchesAll(cs, t, row.(jobid := [])) == MatchesAll(cs, t, row)
    ensures forall i :: OnTable(cs, i, t) ==> WantedRow(cs[i], row.(jobid := [])) == WantedRow(cs[i], row)
  {
    var r := row.(jobid := []);
    forall i | OnTable(cs, i, t) ensures RowMatches(cs[i], r) == RowMatches(cs[i], row) {
      assert IndexValue(r) == IndexValue(row);
    }
  }

  function TablesOf(cs: seq<Cond>): set<Bytes> {
    set i | 0 <= i < |cs| && !IsJobId(cs[i].attr) :: TableOf(cs[i].attr)
  }

  lemma TouchedTables(cs: seq<Cond>, t: Bytes)
    ensures t in TablesOf(cs) <==> Touches(cs, t)
  {
  }

  ghost predicate MatchingRow(cs: seq<Cond>, t: Bytes, row: Row)
    requires Compilable(cs)
  {
    TextRow(row) && row.jobid == [] && MatchesAll(cs, t, row)
  }

  ghost function PickMatch(cs: seq<Cond>, t: Bytes): (row: Row)
    requires Compilable(cs) && TableSelectable(cs, t)
    ensures MatchingRow(cs, t, row)
  {
    var r :| TextRow(r) && MatchesAll(cs, t, r);
    OfTheJob(cs, t, r);
    r.(jobid := [])
  }

  lemma MatchingRows(cs: seq<Cond>) returns (rows: Rows)
    requires Compilable(cs) && Selectable(cs)
    ensures PlainRows(rows) && RowsMatch(cs, rows)
  {
    forall t | t in TablesOf(cs) ensures TableSelectable(cs, t) {
      TouchedTables(cs, t);
    }
    rows := map t | t in TablesOf(cs) :: {PickMatch(cs, t)};
    forall t | Touches(cs, t) ensures TableMatches(cs, rows, t) {
      TouchedTables(cs, t);
      assert PickMatch(cs, t) in rows[t];
    }
  }

  /** A row condition i asks for, on table t one that not all conditions match. */
  ghost predicate AskedRow(cs: seq<Cond>, t: Bytes, i: int, row: Row)
    requires Compilable(cs) && 0 <= i < |cs|
  {
    TextRow(row) && row.jobid == [] && WantedRow(cs[i], row) && (OnTable(cs, i, t) ==> !MatchesAll(cs, t, row))
  }

  lemma CanAsk(cs: seq<Cond>, t: Bytes, i: int)
    requires Compilable(cs) && 0 <= i < |cs| && RowSatisfiable(cs[i])
    requires OnTable(cs, i, t) ==> !Decides(cs, t, cs[i])
    ensures exists row :: AskedRow(cs, t, i, row)
  {
    if OnTable(cs, i, t) {
      var r :| TextRow(r) && WantedRow(cs[i], r) && !MatchesAll(cs, t, r);
      OfTheJob(cs, t, r);
      assert AskedRow(cs, t, i, r.(jobid := []));
    } else {
      var r :| TextRow(r) && WantedRow(cs[i], r);
      assert AskedRow(cs, t, i, r.(jobid := []));
    }
  }

  ghost function Ask(cs: seq<Cond>, t: Bytes, i: int): (row: Row)
    requires Compilable(cs) && 0 <= i < |cs| && RowSatisfiable(cs[i])
    requires OnTable(cs, i, t) ==> !Decides(cs, t, cs[i])
    ensures AskedRow(cs, t, i, row)
  {
    CanAsk(cs, t, i);
    var row :| AskedRow(cs, t, i, row); row
  }

  /** Rows for all conditions, none of them on table t matching all conditions there. */
  lemma AskedRows(cs: seq<Cond>, t: Bytes) returns (rows: Rows)
    requires Compilable(cs) && Satisfiable(cs)
    requires forall i :: OnTable(cs, i, t) ==> !Decides(cs, t, cs[i])
    ensures PlainRows(rows) && RowsWanted(cs, rows) && !TableMatches(cs, rows, t)
  {
    rows := map u | u in TablesOf(cs) :: set i | 0 <= i < |cs| && OnTable(cs, i, u) :: Ask(cs, t, i);
    forall i | 0 <= i < |cs| && !IsJobId(cs[i].attr) ensures CondWanted(cs[i], rows) {
      assert OnTable(cs, i, TableOf(cs[i].attr)) && TableOf(cs[i].attr) in TablesOf(cs);
      assert Ask(cs, t, i) in rows[TableOf(cs[i].attr)];
    }
    forall u, row | u in rows && row in rows[u]
      ensures TextRow(row) && row.jobid == [] && (u == t ==> !MatchesAll(cs, t, row))
    {
      var i :| 0 <= i < |cs| && OnTable(cs, i, u) && row == Ask(cs, t, i);
    }
  }

  /** Rows for all conditions. */
  lemma WantedRows(cs: seq<Cond>) returns (rows: Rows)
    requires Compilable(cs) && Satisfiable(cs)
    ensures PlainRows(rows) && RowsWanted(cs, rows)
  {
    var t := SomeOtherTable(TablesOf(cs));
    TouchedTables(cs, t);
    rows := AskedRows(cs, t);
  }

  /** A name longer than all of them. */
  lemma SomeOtherTable(ts: set<Bytes>) returns (t: Bytes)
    ensures t !in ts && forall u :: u in ts ==> |u| < |t|
    decreases ts
  {
    if ts == {} {
      t := [];
    } else {
      var u :| u in ts;
      var v := SomeOtherTable(ts - {u});
      t := if |u| < |v| then v else u + [0];
      forall x | x in ts ensures |x| < |t| {
        if x != u { assert x in ts - {u}; }
      }
    }
  }

  lemma RowsAreSelectable(cs: seq<Cond>, v: Bytes, rows: Rows)
    requires Compilable(cs) && NulFree(v) && JobIdsMatch(cs, v) && PlainRows(rows) && RowsMatch(cs, rows)
    ensures Selectable(cs)
  {
    forall t | Touches(cs, t) ensures TableSelectable(cs, t) {
      assert TableMatches(cs, rows, t);
      var row :| row in rows[t] && MatchesAll(cs, t, row);
    }
  }

  lemma RowsAreSatisfiable(cs: seq<Cond>, v: Bytes, rows: Rows)
    requires NulFree(v) && JobIdsHold(cs, v) && PlainRows(rows) && RowsWanted(cs, rows)
    ensures Satisfiable(cs)
  {
    forall i | 0 <= i < |cs| && !IsJobId(cs[i].attr) ensures RowSatisfiable(cs[i]) {
      assert CondWanted(cs[i], rows);
      var row :| row in rows[TableOf(cs[i].attr)] && WantedRow(cs[i], row);
    }
  }

  lemma BothOrNeither(cs: seq<Cond>)
    requires Compilable(cs) && ExactOnRows(cs)
    ensures Selectable(cs) <==> Satisfiable(cs)
  {
    if Selectable(cs) {
      var v :| NulFree(v) && JobIdsMatch(cs, v);
      var rows := MatchingRows(cs);
      RowsAreSatisfiable(cs, v, rows);
    }
    if Satisfiable(cs) {
      var v :| NulFree(v) && JobIdsHold(cs, v);
      var rows := WantedRows(cs);
      RowsAreSelectable(cs, v, rows);
    }
  }

  lemma SameJobIdsNeeded(cs: seq<Cond>)
    requires Compilable(cs) && ExactOnRows(cs) && Selectable(cs) && Satisfiable(cs)
    ensures SameJobIds(cs)
  {
    var matching := MatchingRows(cs);
    var wanted := WantedRows(cs);
    forall v | NulFree(v) ensures JobIdsMatch(cs, v) <==> JobIdsHold(cs, v) {
      assert JobIdsMatch(cs, v) && RowsMatch(cs, matching) <==> JobIdsHold(cs, v) && RowsWanted(cs, matching);
      assert JobIdsMatch(cs, v) && RowsMatch(cs, wanted) <==> JobIdsHold(cs, v) && RowsWanted(cs, wanted);
    }
  }

  lemma WithRow(cs: seq<Cond>, rows: Rows, t: Bytes, row: Row)
    requires Compilable(cs) && PlainRows(rows) && RowsMatch(cs, rows) && MatchingRow(cs, t, row)
    ensures PlainRows(rows[t := {row}]) && RowsMatch(cs, rows[t := {row}])
  {
    var more := rows[t := {row}];
    forall u | Touches(cs, u) ensures TableMatches(cs, more, u) {
      if u == t {
        assert row in more[t];
      } else {
        assert TableMatches(cs, rows, u);
      }
    }
  }

  lemma OnlyRow(cs: seq<Cond>, rows: Rows, t: Bytes, row: Row)
    requires t in rows && rows[t] == {row} && RowsWanted(cs, rows)
    ensures WantedByAll(cs, t, row)
  {
    forall i | OnTable(cs, i, t) ensures WantedRow(cs[i], row) {
      assert CondWanted(cs[i], rows);
    }
  }

  lemma ExactHere(cs: seq<Cond>, v: Bytes, rows: Rows)
    requires Compilable(cs) && ExactOnRows(cs) && NulFree(v) && PlainRows(rows)
    ensures JobIdsMatch(cs, v) && RowsMatch(cs, rows) <==> JobIdsHold(cs, v) && RowsWanted(cs, rows)
  {
  }

  lemma MatchedIsWantedNeeded(cs: seq<Cond>, t: Bytes, row: Row)
    requires Compilable(cs) && ExactOnRows(cs) && Selectable(cs)
    requires TextRow(row) && MatchesAll(cs, t, row)
    ensures WantedByAll(cs, t, row)
  {
    var v :| NulFree(v) && JobIdsMatch(cs, v);
    var rows := MatchingRows(cs);
    var r := row.(jobid := []);
    OfTheJob(cs, t, row);
    WithRow(cs, rows, t, r);
    ExactHere(cs, v, rows[t := {r}]);
    OnlyRow(cs, rows[t := {r}], t, r);
  }

  lemma NotExactHere(cs: seq<Cond>, v: Bytes, rows: Rows, t: Bytes)
    requires Compilable(cs) && NulFree(v) && PlainRows(rows) && JobIdsHold(cs, v) && RowsWanted(cs, rows)
    requires Touches(cs, t) && !TableMatches(cs, rows, t)
    ensures !ExactOnRows(cs)
  {
    assert !RowsMatch(cs, rows);
  }

  lemma WithoutDecider(cs: seq<Cond>, t: Bytes)
    requires Compilable(cs) && Satisfiable(cs) && Touches(cs, t) && !HasDecider(cs, t)
    ensures !ExactOnRows(cs)
  {
    var v :| NulFree(v) && JobIdsHold(cs, v);
    var rows := AskedRows(cs, t);
    NotExactHere(cs, v, rows, t);
  }

  lemma FaithfulIsNeeded(cs: seq<Cond>)
    requires Compilable(cs) && ExactOnRows(cs) && (Selectable(cs) || Satisfiable(cs))
    ensures Faithful(cs)
  {
    BothOrNeither(cs);
    SameJobIdsNeeded(cs);
    forall t | Touches(cs, t) ensures MatchedIsWanted(cs, t) && HasDecider(cs, t) {
      if !HasDecider(cs, t) { WithoutDecider(cs, t); }
      forall row | TextRow(row) && MatchesAll(cs, t, row) ensures WantedByAll(cs, t, row) {
        MatchedIsWantedNeeded(cs, t, row);
      }
    }
  }

  // ----- exactly when ---------------------------------------------------------------------------------------------

  lemma ExactFor(cs: seq<Cond>, q: Query, db: Database, job: Job)
    requires Compiled(cs, q) && WellShaped(cs) && TextDatabase(db, cs)
    requires (!Selectable(cs) && !Satisfiable(cs)) || Faithful(cs)
    ensures ParseClause(q.tokens).Some?
    ensures Selects(db, q, ParseClause(q.tokens).value, job) <==> Wanted(db, cs, q.peer, job)
  {
    CompiledMeaning(db, cs, q, job);
    if Faithful(cs) {
      FaithfulIsEnough(db, cs, q.peer, job);
    } else {
      if Grouped(db, cs, q.peer, job) { GroupedIsSelectable(db, cs, q.peer, job); }
      if Wanted(db, cs, q.peer, job) { WantedIsSatisfiable(db, cs, q.peer, job); }
    }
  }

  /** For every list of conditions that compiles to a well-formed statement: it has the
      meaning of the query in every database if and only if neither can ever be met, or
      the job id conditions hold of the same ids as compiled, and on each attribute what
      matches as compiled is what every condition asks for, and what one of them asks
      for matches as compiled. */
  lemma ExactIff(cs: seq<Cond>, q: Query)
    requires Compiled(cs, q) && WellShaped(cs)
    ensures ParseClause(q.tokens).Some?
    ensures Exact(cs, q) <==> (!Selectable(cs) && !Satisfiable(cs)) || Faithful(cs)
  {
    WellFormedIffShaped(cs);
    if Exact(cs, q) {
      ExactGivesRows(cs, q);
      if Selectable(cs) || Satisfiable(cs) { FaithfulIsNeeded(cs); }
    }
    if (!Selectable(cs) && !Satisfiable(cs)) || Faithful(cs) {
      forall db, job | TextDatabase(db, cs)
        ensures Selects(db, q, ParseClause(q.tokens).value, job) <==> Wanted(db, cs, q.peer, job)
      {
        ExactFor(cs, q, db, job);
      }
    }
  }

  // ----- conditions sound by themselves -------------------------------------------------------------------------

  ghost predicate Implies(c: Cond, d: Cond) {
    forall row :: TextRow(row) && WantedRow(c, row) ==> WantedRow(d, row)
  }

  ghost predicate ImpliesAll(cs: seq<Cond>, t: Bytes, c: Cond) {
    forall j :: OnTable(cs, j, t) ==> Implies(c, cs[j])
  }

  /** One condition on the table implies all the others on it. */
  ghost predicate HasStrongest(cs: seq<Cond>, t: Bytes) {
    exists i :: OnTable(cs, i, t) && ImpliesAll(cs, t, cs[i])
  }

  lemma SoundMatches(cs: seq<Cond>, t: Bytes, row: Row)
    requires Sound(cs) && Compilable(cs) && TextRow(row)
    ensures MatchesAll(cs, t, row) <==> WantedByAll(cs, t, row)
  {
    forall i | OnTable(cs, i, t) ensures RowMatches(cs[i], row) <==> WantedRow(cs[i], row) {
      ExistsIsDroppedBesideComparisons(cs[i], row);
    }
  }

  lemma SoundJobIds(cs: seq<Cond>)
    requires Sound(cs) && Compilable(cs)
    ensures SameJobIds(cs)
  {
    forall v | NulFree(v) ensures JobIdsMatch(cs, v) <==> JobIdsHold(cs, v) {
      JobIdsAgree(cs, JobOf(v));
    }
  }

  lemma SoundDecider(cs: seq<Cond>, t: Bytes)
    requires Sound(cs) && Compilable(cs)
    ensures HasDecider(cs, t) <==> HasStrongest(cs, t)
  {
    if HasDecider(cs, t) {
      var i :| OnTable(cs, i, t) && Decides(cs, t, cs[i]);
      DecidesAll(cs, t, i);
    }
    if HasStrongest(cs, t) {
      var i :| OnTable(cs, i, t) && ImpliesAll(cs, t, cs[i]);
      DecidesAll(cs, t, i);
    }
  }

  lemma DecidesAll(cs: seq<Cond>, t: Bytes, i: int)
    requires Sound(cs) && Compilable(cs) && OnTable(cs, i, t)
    ensures Decides(cs, t, cs[i]) <==> ImpliesAll(cs, t, cs[i])
  {
    forall row | TextRow(row) ensures MatchesAll(cs, t, row) <==> WantedByAll(cs, t, row) {
      SoundMatches(cs, t, row);
    }
    if Decides(cs, t, cs[i]) {
      forall j | OnTable(cs, j, t) ensures Implies(cs[i], cs[j]) {
        forall row | TextRow(row) && WantedRow(cs[i], row) ensures WantedRow(cs[j], row) {
          assert WantedByAll(cs, t, row);
        }
      }
    }
  }

  lemma SoundIsSatisfiable(cs: seq<Cond>)
    requires Sound(cs) && Compilable(cs) && Selectable(cs)
    ensures Satisfiable(cs)
  {
    SoundJobIds(cs);
    forall i | 0 <= i < |cs| && !IsJobId(cs[i].attr) ensures RowSatisfiable(cs[i]) {
      var t := TableOf(cs[i].attr);
      assert Touches(cs, t) && OnTable(cs, i, t);
      assert TableSelectable(cs, t);
      var row :| TextRow(row) && MatchesAll(cs, t, row);
      SoundMatches(cs, t, row);
    }
  }

  /** For conditions sound by themselves, the statement has the meaning of the query in
      every database if and only if they cannot be met at all or, on each attribute, one
      condition implies all the others. */
  lemma ExactIffStrongest(cs: seq<Cond>, q: Query)
    requires Sound(cs) && Compiled(cs, q)
    ensures ParseClause(q.tokens).Some?
    ensures Exact(cs, q) <==> !Satisfiable(cs) || forall t :: Touches(cs, t) ==> HasStrongest(cs, t)
  {
    ExactIff(cs, q);
    SoundJobIds(cs);
    if Selectable(cs) { SoundIsSatisfiable(cs); }
    forall t | Touches(cs, t) ensures MatchedIsWanted(cs, t) && (HasDecider(cs, t) <==> HasStrongest(cs, t)) {
      SoundDecider(cs, t);
      forall row | TextRow(row) && MatchesAll(cs, t, row) ensures WantedByAll(cs, t, row) {
        SoundMatches(cs, t, row);
      }
    }
  }

  lemma TextIsString(db: Database, cs: seq<Cond>)
    requires TextDatabase(db, cs)
    ensures StringRows(db, cs)
  {
    forall u, row | Touches(cs, u) && u in db.tables && row in db.tables[u] ensures !row.attr.binary {
      assert TextRow(row);
    }
  }

  lemma Disagreement(cs: seq<Cond>, q: Query) returns (db: Database, job: Job)
    requires !Exact(cs, q)
    ensures TextDatabase(db, cs) && ParseClause(q.tokens).Some?
    ensures !(Selects(db, q, ParseClause(q.tokens).value, job) <==> Wanted(db, cs, q.peer, job))
  {
    db, job :| TextDatabase(db, cs) && ParseClause(q.tokens).Some?
      && !(Selects(db, q, ParseClause(q.tokens).value, job) <==> Wanted(db, cs, q.peer, job));
  }

  lemma SelectedIsWanted(cs: seq<Cond>, q: Query, db: Database, job: Job)
    requires Sound(cs) && Compiled(cs, q) && TextDatabase(db, cs) && ParseClause(q.tokens).Some?
    requires Selects(db, q, ParseClause(q.tokens).value, job)
    ensures Wanted(db, cs, q.peer, job)
  {
    CompiledMeaning(db, cs, q, job);
    TextIsString(db, cs);
    GroupedIsWanted(db, cs, q.peer, job);
  }

  /** Without a strongest condition on some table, a job is wanted and not selected. */
  lemma StrongestIsNeeded(cs: seq<Cond>, q: Query, t: Bytes) returns (db: Database, job: Job)
    requires Sound(cs) && Compiled(cs, q) && Satisfiable(cs) && !HasStrongest(cs, t) && Touches(cs, t)
    ensures TextDatabase(db, cs) && ParseClause(q.tokens).Some?
    ensures Wanted(db, cs, q.peer, job) && !Selects(db, q, ParseClause(q.tokens).value, job)
  {
    ExactIffStrongest(cs, q);
    db, job := Disagreement(cs, q);
    if Selects(db, q, ParseClause(q.tokens).value, job) { SelectedIsWanted(cs, q, db, job); }
  }
}
