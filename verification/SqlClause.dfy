/** The WHERE clause the index server builds as text, one token at a time, and
    how the database reads it: units joined by AND, a unit being an atom or a
    parenthesised list of atoms joined by OR. */
module SqlClause {
  import opened Text

  datatype Column = DgJobid | ValueOf(table: Bytes)

  datatype SqlOp =
    | Eq        // =
    | Ne        // !=
    | Gt        // >
    | Lt        // <
    | Between   // BETWEEN ... AND ...

  datatype Atom =
    | JoinsJob(table: Bytes)                 // jobs.jobid = attr_t.jobid
    | OriginIs(table: Bytes, origin: int)    // attr_t.origin = n
    | Cmp(column: Column, op: SqlOp, literal: Bytes, literal2: Bytes)

  datatype Token = AND | OR | OPEN | CLOSE | ATOM(atom: Atom)

  type Clause = seq<seq<Atom>>

  // ----- how the database reads the tokens ------------------------------------------------

  /** Behind an opening parenthesis: the atoms up to the closing one. */
  function ParseOrs(ts: seq<Token>): (r: Option<(seq<Atom>, seq<Token>)>)
    ensures r.Some? ==> |r.value.1| < |ts|
  {
    if |ts| < 2 || !ts[0].ATOM? then None
    else if ts[1] == CLOSE then Some(([ts[0].atom], ts[2..]))
    else if ts[1] != OR then None
    else
      match ParseOrs(ts[2..])
      case None => None
      case Some((atoms, rest)) => Some(([ts[0].atom] + atoms, rest))
  }

  function ParseUnit(ts: seq<Token>): (r: Option<(seq<Atom>, seq<Token>)>)
    ensures r.Some? ==> |r.value.1| < |ts|
  {
    if ts == [] then None
    else if ts[0].ATOM? then Some(([ts[0].atom], ts[1..]))
    else if ts[0] == OPEN then ParseOrs(ts[1..])
    else None
  }

  /** None is a syntax error. */
  function ParseClause(ts: seq<Token>): Option<Clause>
    decreases |ts|, 1
  {
    match ParseUnit(ts)
    case None => None
    case Some((unit, rest)) =>
      match ParseRest(rest)
      case None => None
      case Some(units) => Some([unit] + units)
  }

  /** Behind a unit: the end, or AND and more units. */
  function ParseRest(ts: seq<Token>): Option<Clause>
    decreases |ts|, 0
  {
    if ts == [] then Some([])
    else if ts[0] == AND then ParseClause(ts[1..])
    else None
  }

  // ----- what the builder writes ------------------------------------------------------------

  datatype Unit = Bare(atom: Atom) | Paren(atoms: seq<Atom>)

  predicate NonEmptyUnit(u: Unit) {
    u.Paren? ==> u.atoms != []
  }

  function UnitAtoms(u: Unit): seq<Atom> {
    match u
    case Bare(a) => [a]
    case Paren(atoms) => atoms
  }

  function OrTokens(atoms: seq<Atom>): seq<Token> {
    if atoms == [] then []
    else if |atoms| == 1 then [ATOM(atoms[0])]
    else [ATOM(atoms[0]), OR] + OrTokens(atoms[1..])
  }

  function UnitTokens(u: Unit): seq<Token> {
    match u
    case Bare(a) => [ATOM(a)]
    case Paren(atoms) => [OPEN] + OrTokens(atoms) + [CLOSE]
  }

  function UnitsTokens(us: seq<Unit>): seq<Token> {
    if us == [] then []
    else if |us| == 1 then UnitTokens(us[0])
    else UnitTokens(us[0]) + [AND] + UnitsTokens(us[1..])
  }

  function UnitsAtoms(us: seq<Unit>): Clause {
    if us == [] then [] else [UnitAtoms(us[0])] + UnitsAtoms(us[1..])
  }

  lemma ParseOneOr(a: Atom, more: seq<Token>)
    ensures ParseOrs([ATOM(a), OR] + more) == match ParseOrs(more)
      case None => None
      case Some((atoms, rest)) => Some(([a] + atoms, rest))
  {
    assert ([ATOM(a), OR] + more)[2..] == more;
  }

  lemma {:induction false} ParseWrittenOrs(atoms: seq<Atom>, rest: seq<Token>)
    requires atoms != []
    ensures ParseOrs(OrTokens(atoms) + ([CLOSE] + rest)) == Some((atoms, rest))
  {
    if |atoms| == 1 {
      assert OrTokens(atoms) + ([CLOSE] + rest) == [ATOM(atoms[0]), CLOSE] + rest;
      assert ([ATOM(atoms[0]), CLOSE] + rest)[2..] == rest;
      assert atoms == [atoms[0]];
    } else {
      var more := OrTokens(atoms[1..]) + ([CLOSE] + rest);
      ParseWrittenOrs(atoms[1..], rest);
      assert OrTokens(atoms) + ([CLOSE] + rest) == [ATOM(atoms[0]), OR] + more;
      ParseOneOr(atoms[0], more);
      assert atoms == [atoms[0]] + atoms[1..];
    }
  }

  lemma ParseWrittenUnit(u: Unit, rest: seq<Token>)
    requires NonEmptyUnit(u)
    ensures ParseUnit(UnitTokens(u) + rest) == Some((UnitAtoms(u), rest))
  {
    var ts := UnitTokens(u) + rest;
    match u
    case Bare(a) =>
      assert ts[1..] == rest;
    case Paren(atoms) =>
      assert ts[1..] == OrTokens(atoms) + ([CLOSE] + rest);
      ParseWrittenOrs(atoms, rest);
  }

  function Prefixed(units: Clause, c: Option<Clause>): Option<Clause> {
    match c
    case None => None
    case Some(more) => Some(units + more)
  }

  lemma ClauseStep(ts: seq<Token>, unit: seq<Atom>, rest: seq<Token>)
    requires ParseUnit(ts) == Some((unit, rest))
    ensures ParseClause(ts) == Prefixed([unit], ParseRest(rest))
  {
  }

  lemma RestStep(more: seq<Token>)
    ensures ParseRest([AND] + more) == ParseClause(more)
  {
    assert ([AND] + more)[1..] == more;
  }

  lemma PrefixedTwice(a: Clause, b: Clause, c: Option<Clause>)
    ensures Prefixed(a, Prefixed(b, c)) == Prefixed(a + b, c)
  {
    if c.Some? {
      assert a + (b + c.value) == a + b + c.value;
    }
  }

  lemma ParseOneUnit(u: Unit, rest: seq<Token>)
    requires NonEmptyUnit(u)
    ensures ParseClause(UnitsTokens([u]) + rest) == Prefixed(UnitsAtoms([u]), ParseRest(rest))
  {
    ParseWrittenUnit(u, rest);
    ClauseStep(UnitTokens(u) + rest, UnitAtoms(u), rest);
    assert UnitsAtoms([u]) == [UnitAtoms(u)];
  }

  lemma UnitsTokensCons(us: seq<Unit>, rest: seq<Token>)
    requires |us| > 1
    ensures UnitsTokens(us) + rest == UnitTokens(us[0]) + ([AND] + (UnitsTokens(us[1..]) + rest))
  {
  }

  lemma {:induction false} ParseWrittenUnits(us: seq<Unit>, rest: seq<Token>)
    requires us != [] && forall i :: 0 <= i < |us| ==> NonEmptyUnit(us[i])
    ensures ParseClause(UnitsTokens(us) + rest) == Prefixed(UnitsAtoms(us), ParseRest(rest))
  {
    if |us| == 1 {
      assert us == [us[0]];
      ParseOneUnit(us[0], rest);
    } else {
      var more := UnitsTokens(us[1..]) + rest;
      ParseWrittenUnits(us[1..], rest);
      UnitsTokensCons(us, rest);
      ParseWrittenUnit(us[0], [AND] + more);
      ClauseStep(UnitsTokens(us) + rest, UnitAtoms(us[0]), [AND] + more);
      RestStep(more);
      PrefixedTwice([UnitAtoms(us[0])], UnitsAtoms(us[1..]), ParseRest(rest));
    }
  }

  // ----- one block per condition ----------------------------------------------------------------

  /** The text of one condition: units, with or without AND in front. */
  datatype Block = Block(lead: bool, units: seq<Unit>)

  function BlockTokens(b: Block): seq<Token> {
    (if b.lead && b.units != [] then [AND] else []) + UnitsTokens(b.units)
  }

  function BlocksTokens(bs: seq<Block>): seq<Token> {
    if bs == [] then [] else BlockTokens(bs[0]) + BlocksTokens(bs[1..])
  }

  function BlocksAtoms(bs: seq<Block>): Clause {
    if bs == [] then [] else UnitsAtoms(bs[0].units) + BlocksAtoms(bs[1..])
  }

  predicate NonEmptyBlocks(bs: seq<Block>) {
    forall b :: b in bs ==> forall i :: 0 <= i < |b.units| ==> NonEmptyUnit(b.units[i])
  }

  /** Every block with text starts with AND. */
  predicate Continues(bs: seq<Block>) {
    forall i :: 0 <= i < |bs| && bs[i].units != [] ==> bs[i].lead
  }

  /** Some block has text, the first one that does starts without AND, and all
      later ones continue it. */
  predicate Starts(bs: seq<Block>) {
    bs != [] && if bs[0].units == [] then Starts(bs[1..]) else !bs[0].lead && Continues(bs[1..])
  }

  lemma UnitStart(us: seq<Unit>)
    requires us != []
    ensures |UnitsTokens(us)| > 0 && UnitsTokens(us)[0] != AND
  {
  }

  lemma BlockTokensShape(b: Block, tail: seq<Token>)
    requires b.units != []
    ensures BlockTokens(b) + tail ==
            if b.lead then [AND] + (UnitsTokens(b.units) + tail) else UnitsTokens(b.units) + tail
  {
  }

  lemma NoClauseAfterAnd(ts: seq<Token>)
    ensures ParseClause([AND] + ts).None?
  {
    assert ([AND] + ts)[0] == AND;
  }

  lemma NoRestWithoutAnd(us: seq<Unit>, tail: seq<Token>)
    requires us != []
    ensures ParseRest(UnitsTokens(us) + tail).None?
  {
    UnitStart(us);
    assert (UnitsTokens(us) + tail)[0] == UnitsTokens(us)[0];
  }

  /** Tokens of one more block in front of `tail`. */
  lemma ParseBlock(b: Block, tail: seq<Token>)
    requires b.units != [] && forall i :: 0 <= i < |b.units| ==> NonEmptyUnit(b.units[i])
    ensures ParseRest(BlockTokens(b) + tail) == if b.lead then Prefixed(UnitsAtoms(b.units), ParseRest(tail)) else None
    ensures ParseClause(BlockTokens(b) + tail) ==
            if b.lead then None else Prefixed(UnitsAtoms(b.units), ParseRest(tail))
  {
    var text := UnitsTokens(b.units) + tail;
    BlockTokensShape(b, tail);
    ParseWrittenUnits(b.units, tail);
    if b.lead {
      RestStep(text);
      NoClauseAfterAnd(text);
    } else {
      NoRestWithoutAnd(b.units, tail);
    }
  }

  lemma ContinuesCons(bs: seq<Block>)
    requires bs != []
    ensures Continues(bs) <==> (bs[0].units == [] || bs[0].lead) && Continues(bs[1..])
  {
    assert forall i :: 1 <= i < |bs| ==> bs[i] == bs[1..][i - 1];
  }

  lemma EmptyBlock(b: Block, bs: seq<Block>)
    requires b.units == []
    ensures BlocksTokens([b] + bs) == BlocksTokens(bs) && BlocksAtoms([b] + bs) == BlocksAtoms(bs)
  {
    assert ([b] + bs)[1..] == bs;
  }

  lemma {:induction false} RestOfBlocks(bs: seq<Block>)
    requires NonEmptyBlocks(bs)
    ensures ParseRest(BlocksTokens(bs)) == if Continues(bs) then Some(BlocksAtoms(bs)) else None
  {
    if bs != [] {
      var b, tail := bs[0], BlocksTokens(bs[1..]);
      RestOfBlocks(bs[1..]);
      ContinuesCons(bs);
      assert b in bs;
      if b.units == [] {
        assert bs == [b] + bs[1..];
        EmptyBlock(b, bs[1..]);
      } else {
        ParseBlock(b, tail);
      }
    }
  }

  /** The clause is well formed if and only if the blocks start one, and then it
      means the conjunction of all their units. */
  lemma {:induction false} ClauseOfBlocks(bs: seq<Block>)
    requires NonEmptyBlocks(bs)
    ensures ParseClause(BlocksTokens(bs)) == if Starts(bs) then Some(BlocksAtoms(bs)) else None
  {
    if bs != [] {
      var b, tail := bs[0], BlocksTokens(bs[1..]);
      assert b in bs;
      if b.units == [] {
        ClauseOfBlocks(bs[1..]);
        assert bs == [b] + bs[1..];
        EmptyBlock(b, bs[1..]);
      } else {
        RestOfBlocks(bs[1..]);
        ParseBlock(b, tail);
      }
    }
  }
}
