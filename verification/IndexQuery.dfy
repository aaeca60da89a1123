/** The query compiler of the index server: an AND of ORs over attributes becomes
    one join of the jobs table with a table per attribute, comparing truncated
    index values. */
module IndexQuery {
  import opened Text
  import opened AttrValues
  import opened SqlClause
  import opened KnownAttrs

  /** How the formatter prints an absent string. */
  const NIL_TEXT: Bytes := Ascii("(nil)")

  // ----- queries as they arrive -----------------------------------------------------------

  datatype Value = Str(text: Bytes) | Blob(bytes: Bytes)

  datatype Rec = Rec(op: QueryOp, value: Option<Value>, value2: Option<Value>)

  /** One condition: an attribute, perhaps an origin, and alternative records. */
  datatype Cond = Cond(attr: Bytes, origin: Option<int>, records: seq<Rec>)

  function LowerByte(b: byte): byte {
    if 65 <= b <= 90 then b + 32 else b
  }

  /** The table of an attribute, named after the digest of its lower-case name; the
      name stands for its digest here. */
  function TableOf(attr: Bytes): Bytes {
    seq(|attr|, i requires 0 <= i < |attr| => LowerByte(attr[i]))
  }

  /** Two attributes share a table exactly if they differ at most in the case of letters. */
  lemma TablesIgnoreCase(a: Bytes, b: Bytes)
    ensures TableOf(a) == TableOf(b) <==>
      |a| == |b| && forall i :: 0 <= i < |a| ==>
        a[i] == b[i] || (65 <= a[i] <= 90 && b[i] == a[i] + 32) || (65 <= b[i] <= 90 && a[i] == b[i] + 32)
  {
    if TableOf(a) == TableOf(b) {
      forall i | 0 <= i < |a|
        ensures a[i] == b[i] || (65 <= a[i] <= 90 && b[i] == a[i] + 32) || (65 <= b[i] <= 90 && a[i] == b[i] + 32)
      {
        assert TableOf(a)[i] == TableOf(b)[i];
      }
    }
  }

  predicate IsJobId(attr: Bytes) {
    TableOf(attr) == TableOf(ATTR_JOBID)
  }

  // ----- the database ---------------------------------------------------------------------

  datatype Job = Job(jobid: Bytes, dgJobid: Bytes, ownerid: Bytes, ps: Bytes)

  datatype User = User(userid: Bytes, subject: Bytes)

  /** A row of an attribute table; the value column is the index form of attr. */
  datatype Row = Row(jobid: Bytes, attr: AttrVal)

  function IndexValue(r: Row): Bytes {
    ToDbIndex(r.attr, INDEX_LENGTH)
  }

  datatype Database = Database(jobs: set<Job>, users: set<User>, tables: map<Bytes, set<Row>>)

  // ----- the generated statement -------------------------------------------------------------

  /** SELECT DISTINCT dg_jobid, ps FROM jobs [, users], tables WHERE [owner AND] tokens;
      peer is absent when authorisation is off. */
  datatype Query = Query(peer: Option<Bytes>, tables: seq<Bytes>, tokens: seq<Token>)

  function StringOf(v: Option<Value>): Option<Bytes> {
    if v.Some? && v.value.Str? then Some(v.value.text) else None
  }

  /** get_sql_indexvalue */
  function IndexLiteral(v: Option<Value>): Option<Bytes> {
    if v.None? then None
    else Some(match v.value
              case Str(text) => Truncate(text, INDEX_LENGTH)
              case Blob(_) => [88, 88, 88])
  }

  function Printed(s: Option<Bytes>): Bytes {
    if s.Some? then s.value else NIL_TEXT
  }

  /** get_op: the SQL operator of a query operator; EXISTS has none. */
  function GetOp(op: QueryOp): Option<SqlOp> {
    match op
    case EQUAL => Some(Eq)
    case UNEQUAL => Some(Ne)
    case GREATER => Some(Gt)
    case LESS => Some(Lt)
    case WITHIN => Some(Between)
    case EXISTS => None
    case UNDEF => None
  }

  /** The comparison written for one record; None is an error. An operator outside
      the enumeration fails the assertion of its conversion, before any text is
      written. */
  function RecAtom(c: Cond, r: Rec): Option<Atom> {
    if GetOp(r.op).None? then None
    else if IsJobId(c.attr) then
      if StringOf(r.value).None? then None
      else Some(Cmp(DgJobid, GetOp(r.op).value, StringOf(r.value).value, Printed(StringOf(r.value2))))
    else if r.op == WITHIN && r.value.None? then None
    else
      Some(Cmp(ValueOf(TableOf(c.attr)), GetOp(r.op).value,
               Printed(IndexLiteral(r.value)), Printed(IndexLiteral(r.value2))))
  }

  /** A comparison converts if and only if it has a string to compare a job id with, or,
      on an attribute, does not ask for WITHIN without a value. */
  lemma RecConvertsIff(c: Cond, r: Rec)
    requires r.op != EXISTS && r.op != UNDEF
    ensures RecAtom(c, r).Some? <==>
      if IsJobId(c.attr) then r.value.Some? && r.value.value.Str? else r.op != WITHIN || r.value.Some?
  {
  }

  /** An absent bound is printed as (nil), a blob compared with as XXX. */
  lemma OddBounds(c: Cond, blob: Bytes)
    requires !IsJobId(c.attr)
    ensures RecAtom(c, Rec(EQUAL, None, None))
         == Some(Cmp(ValueOf(TableOf(c.attr)), Eq, Ascii("(nil)"), Ascii("(nil)")))
    ensures RecAtom(c, Rec(EQUAL, Some(Blob(blob)), None))
         == Some(Cmp(ValueOf(TableOf(c.attr)), Eq, Ascii("XXX"), Ascii("(nil)")))
  {
    assert Ascii("XXX") == [88, 88, 88];
  }

  /** The comparisons of a condition: EXISTS records add none. */
  function Atoms(c: Cond, rs: seq<Rec>): Option<seq<Atom>> {
    if rs == [] then Some([])
    else if rs[0].op == EXISTS then Atoms(c, rs[1..])
    else
      match (RecAtom(c, rs[0]), Atoms(c, rs[1..]))
      case (Some(a), Some(more)) => Some([a] + more)
      case _ => None
  }

  function CondAtoms(c: Cond): Option<seq<Atom>> {
    Atoms(c, c.records)
  }

  predicate Compilable(cs: seq<Cond>) {
    forall i :: 0 <= i < |cs| ==> CondAtoms(cs[i]).Some?
  }

  /** The block of the i-th condition: AND comes in front of every attribute
      condition but the very first condition, and never in front of a jobId one. */
  function CondBlock(c: Cond, i: nat): Block
    requires CondAtoms(c).Some?
  {
    var t, atoms := TableOf(c.attr), CondAtoms(c).value;
    Block(!IsJobId(c.attr) && i > 0,
          (if IsJobId(c.attr) then []
           else (if c.origin.Some? then [Bare(OriginIs(t, c.origin.value))] else []) + [Bare(JoinsJob(t))])
          + (if atoms == [] then [] else [Paren(atoms)]))
  }

  function Blocks(cs: seq<Cond>): (bs: seq<Block>)
    requires Compilable(cs)
    ensures |bs| == |cs|
  {
    seq(|cs|, i requires 0 <= i < |cs| && CondAtoms(cs[i]).Some? => CondBlock(cs[i], i))
  }

  predicate Touches(cs: seq<Cond>, t: Bytes) {
    exists i :: 0 <= i < |cs| && !IsJobId(cs[i].attr) && TableOf(cs[i].attr) == t
  }

  // ----- the builder ----------------------------------------------------------------------------

  /** add_attr_table: a new name goes to the end, a known one changes nothing. */
  method AddAttrTable(name: Bytes, tables: seq<Bytes>) returns (r: seq<Bytes>)
    ensures r == if name in tables then tables else tables + [name]
  {
    for i := 0 to |tables|
      invariant name !in tables[..i]
    {
      if tables[i] == name { return tables; }
    }
    r := tables + [name];
  }

  lemma AtomsOne(c: Cond, r: Rec)
    ensures Atoms(c, [r]) ==
            if r.op == EXISTS then Some([])
            else if RecAtom(c, r).None? then None
            else Some([RecAtom(c, r).value])
  {
    assert [r][1..] == [];
    var more := Atoms(c, [r][1..]);
    assert more == Some([]);
    if RecAtom(c, r).Some? {
      assert [RecAtom(c, r).value] + more.value == [RecAtom(c, r).value];
    }
  }

  lemma {:induction false} AtomsSnoc(c: Cond, rs: seq<Rec>, r: Rec)
    ensures Atoms(c, rs + [r]) ==
            if Atoms(c, rs).None? then None
            else if r.op == EXISTS then Atoms(c, rs)
            else if RecAtom(c, r).None? then None
            else Some(Atoms(c, rs).value + [RecAtom(c, r).value])
  {
    if rs == [] {
      assert rs + [r] == [r];
      AtomsOne(c, r);
      if RecAtom(c, r).Some? {
        assert [] + [RecAtom(c, r).value] == [RecAtom(c, r).value];
      }
    } else {
      assert (rs + [r])[1..] == rs[1..] + [r];
      AtomsSnoc(c, rs[1..], r);
      if rs[0].op != EXISTS && RecAtom(c, rs[0]).Some? && Atoms(c, rs[1..]).Some? && RecAtom(c, r).Some? {
        var a, more, b := RecAtom(c, rs[0]).value, Atoms(c, rs[1..]).value, RecAtom(c, r).value;
        assert [a] + (more + [b]) == [a] + more + [b];
      }
    }
  }

  lemma {:induction false} AtomsError(c: Cond, rs: seq<Rec>, k: nat)
    requires k < |rs| && rs[k].op != EXISTS && RecAtom(c, rs[k]).None?
    ensures Atoms(c, rs).None?
  {
    if k > 0 {
      AtomsError(c, rs[1..], k - 1);
    }
  }

  lemma {:induction false} OrTokensSnoc(atoms: seq<Atom>, a: Atom)
    ensures OrTokens(atoms + [a]) == OrTokens(atoms) + (if OrTokens(atoms) == [] then [] else [OR]) + [ATOM(a)]
  {
    if atoms == [] {
      assert atoms + [a] == [a];
    } else {
      assert (atoms + [a])[1..] == atoms[1..] + [a];
      OrTokensSnoc(atoms[1..], a);
    }
  }

  /** get_sql_or: the comparisons joined by OR; None is an error. */
  method GetSqlOr(c: Cond) returns (sql: Option<seq<Token>>)
    ensures sql == if CondAtoms(c).None? then None else Some(OrTokens(CondAtoms(c).value))
  {
    var text: seq<Token> := [];
    for j := 0 to |c.records|
      invariant Atoms(c, c.records[..j]).Some?
      invariant text == OrTokens(Atoms(c, c.records[..j]).value)
    {
      var r := c.records[j];
      assert c.records[..j + 1] == c.records[..j] + [r];
      AtomsSnoc(c, c.records[..j], r);
      if r.op != EXISTS {
        var atom := RecAtom(c, r);
        if atom.None? {
          AtomsError(c, c.records, j);
          return None;
        }
        OrTokensSnoc(Atoms(c, c.records[..j]).value, atom.value);
        text := text + (if text != [] then [OR] else []) + [ATOM(atom.value)];
      }
    }
    assert c.records[..|c.records|] == c.records;
    sql := Some(text);
  }

  lemma OrTokensEmpty(atoms: seq<Atom>)
    ensures OrTokens(atoms) == [] <==> atoms == []
  {
  }

  /** The text of one condition. */
  method CondText(c: Cond, i: nat, qor: seq<Token>) returns (qa: seq<Token>)
    requires CondAtoms(c).Some? && qor == OrTokens(CondAtoms(c).value)
    ensures qa == BlockTokens(CondBlock(c, i))
  {
    var t := TableOf(c.attr);
    qa := [];
    if !IsJobId(c.attr) {
      var qb := if c.origin.Some? then [ATOM(OriginIs(t, c.origin.value)), AND] else [];
      qa := (if i > 0 then [AND] else []) + qb + [ATOM(JoinsJob(t))];
    }
    OrTokensEmpty(CondAtoms(c).value);
    if qor != [] {
      qa := qa + (if qa != [] then [AND] else []) + ([OPEN] + qor + [CLOSE]);
    }
    CondTextShape(c, i, qor);
  }

  lemma CondTextShape(c: Cond, i: nat, qor: seq<Token>)
    requires CondAtoms(c).Some? && qor == OrTokens(CondAtoms(c).value)
    ensures var t := TableOf(c.attr);
      var join := if IsJobId(c.attr) then []
        else
          (if i > 0 then [AND] else [])
          + (if c.origin.Some? then [ATOM(OriginIs(t, c.origin.value)), AND] else []) + [ATOM(JoinsJob(t))];
      BlockTokens(CondBlock(c, i))
      == if CondAtoms(c).value == [] then join else join + (if join != [] then [AND] else []) + ([OPEN] + qor + [CLOSE])
  {
    var us := CondBlock(c, i).units;
    if |us| == 1 {
      assert UnitsTokens(us) == UnitTokens(us[0]);
    } else if |us| == 2 {
      assert us[1..] == [us[1]];
      assert UnitsTokens(us) == UnitTokens(us[0]) + [AND] + UnitTokens(us[1]);
    } else if |us| == 3 {
      assert us[1..][1..] == [us[2]];
      assert UnitsTokens(us[1..]) == UnitTokens(us[1]) + [AND] + UnitsTokens([us[2]]);
      assert UnitsTokens(us) == UnitTokens(us[0]) + [AND] + (UnitTokens(us[1]) + [AND] + UnitTokens(us[2]));
    }
  }

  lemma {:induction false} BlocksTokensSnoc(bs: seq<Block>, b: Block)
    ensures BlocksTokens(bs + [b]) == BlocksTokens(bs) + BlockTokens(b)
  {
    if bs == [] {
      assert bs + [b] == [b];
      assert BlocksTokens([b]) == BlockTokens(b) + BlocksTokens([]);
    } else {
      assert (bs + [b])[1..] == bs[1..] + [b];
      BlocksTokensSnoc(bs[1..], b);
    }
  }

  lemma BlocksSnoc(cs: seq<Cond>, i: nat)
    requires i < |cs| && Compilable(cs[..i + 1])
    ensures Compilable(cs[..i]) && CondAtoms(cs[i]).Some?
    ensures Blocks(cs[..i + 1]) == Blocks(cs[..i]) + [CondBlock(cs[i], i)]
  {
    assert cs[..i + 1][i] == cs[i];
    forall k | 0 <= k < i ensures CondAtoms(cs[..i][k]).Some? {
      assert cs[..i][k] == cs[..i + 1][k];
    }
  }

  /** Each table the conditions touch, once, and no other. */
  ghost predicate Lists(tables: seq<Bytes>, cs: seq<Cond>) {
    && (forall t :: t in tables <==> Touches(cs, t))
    && (forall i, j :: 0 <= i < j < |tables| ==> tables[i] != tables[j])
  }

  /** The table of the i-th condition. */
  method AddTable(cs: seq<Cond>, i: nat, tables: seq<Bytes>) returns (r: seq<Bytes>)
    requires i < |cs| && Lists(tables, cs[..i])
    ensures Lists(r, cs[..i + 1])
  {
    TouchesSnoc(cs, i);
    r := tables;
    if !IsJobId(cs[i].attr) {
      r := AddAttrTable(TableOf(cs[i].attr), tables);
    }
  }

  /** The text of the i-th condition. */
  method AddText(cs: seq<Cond>, i: nat, where: seq<Token>) returns (r: Option<seq<Token>>)
    requires i < |cs| && Compilable(cs[..i]) && where == BlocksTokens(Blocks(cs[..i]))
    ensures r.Some? <==> CondAtoms(cs[i]).Some?
    ensures r.Some? ==> Compilable(cs[..i + 1]) && r.value == BlocksTokens(Blocks(cs[..i + 1]))
  {
    var qor := GetSqlOr(cs[i]);
    if qor.None? { return None; }
    CompilableSnoc(cs, i);
    var qa := CondText(cs[i], i, qor.value);
    BlocksSnoc(cs, i);
    BlocksTokensSnoc(Blocks(cs[..i]), CondBlock(cs[i], i));
    r := Some(where + qa);
  }

  /** The part of get_jobids that builds the statement; None is an error. */
  method BuildQuery(cs: seq<Cond>, peer: Option<Bytes>) returns (q: Option<Query>)
    ensures q.Some? <==> Compilable(cs)
    ensures q.Some? ==> q.value.peer == peer && q.value.tokens == BlocksTokens(Blocks(cs))
    ensures q.Some? ==> Lists(q.value.tables, cs)
  {
    var tables: seq<Bytes> := [];
    var where: seq<Token> := [];
    for i := 0 to |cs|
      invariant Compilable(cs[..i]) && where == BlocksTokens(Blocks(cs[..i])) && Lists(tables, cs[..i])
    {
      tables := AddTable(cs, i, tables);
      var text := AddText(cs, i, where);
      if text.None? { return None; }
      where := text.value;
    }
    assert cs[..|cs|] == cs;
    q := Some(Query(peer, tables, where));
  }

  lemma CompilableSnoc(cs: seq<Cond>, i: nat)
    requires i < |cs| && Compilable(cs[..i]) && CondAtoms(cs[i]).Some?
    ensures Compilable(cs[..i + 1])
  {
    var head := cs[..i + 1];
    forall k | 0 <= k < |head| ensures CondAtoms(head[k]).Some? {
      if k < i { assert head[k] == cs[..i][k]; }
    }
  }

  lemma TouchesSnoc(cs: seq<Cond>, i: nat)
    requires i < |cs|
    ensures forall t :: Touches(cs[..i + 1], t) <==>
      Touches(cs[..i], t) || (!IsJobId(cs[i].attr) && TableOf(cs[i].attr) == t)
  {
    forall t
      ensures Touches(cs[..i + 1], t) <==> Touches(cs[..i], t) || (!IsJobId(cs[i].attr) && TableOf(cs[i].attr) == t)
    {
      assert cs[..i + 1][i] == cs[i];
      assert forall k :: 0 <= k < i ==> cs[..i + 1][k] == cs[..i][k];
    }
  }
}
