/** How a batch feed splits its attributes and conditions into job metadata, which
    the backend filters on, and the rest, which is fetched and filtered per job. */
module FeedQuery {
  import opened Text
  import opened AttrValues
  import opened KnownAttrs

  /** glite_jppsbe_is_metadata */
  predicate IsMetadata(attr: Bytes) {
    attr == ATTR_OWNER || attr == ATTR_REGTIME
  }

  datatype QueryRec = QueryRec(attr: Bytes, op: QueryOp, value: Bytes, value2: Bytes, binary: bool, origin: int)

  /** check_qry_item asserts that values compare and knows five operators. */
  predicate Checkable(q: QueryRec, a: AttrVal) {
    q.op !in {UNDEF, EXISTS} && (q.attr == a.name ==> q.binary == a.binary)
  }

  /** check_qry_item */
  predicate CheckItem(q: QueryRec, a: AttrVal)
    requires Checkable(q, a)
  {
    q.attr == a.name && (q.origin == ORIG_ANY || q.origin == a.origin)
    && var cmp := FbCmp(a, AttrVal(q.attr, q.value, q.binary, q.origin, None, 0)).value;
    if q.op == EQUAL then cmp == 0
    else if q.op == UNEQUAL then cmp != 0
    else if q.op == LESS then cmp < 0
    else if q.op == GREATER then cmp > 0
    else cmp >= 0 && FbCmp(a, AttrVal(q.attr, q.value2, q.binary, q.origin, None, 0)).value <= 0
  }

  /** check_qry_item decides the comparison the operator names. */
  lemma CheckItemCompares(q: QueryRec, a: AttrVal)
    requires Checkable(q, a) && WellFormed(a) && NulFree(q.value) && NulFree(q.value2)
    ensures CheckItem(q, a) <==>
      q.attr == a.name && (q.origin == ORIG_ANY || q.origin == a.origin) && Compare(q.op, a.value, q.value, q.value2)
  {
    if q.attr == a.name {
      FbCmpIsLex(a, AttrVal(q.attr, q.value, q.binary, q.origin, None, 0));
      FbCmpIsLex(a, AttrVal(q.attr, q.value2, q.binary, q.origin, None, 0));
    }
  }

  // ----- splitting -------------------------------------------------------------------------------

  /** The elements that satisfy f, in order. */
  function Keep<T>(s: seq<T>, f: T -> bool): seq<T> {
    if s == [] then [] else (if f(s[0]) then [s[0]] else []) + Keep(s[1..], f)
  }

  lemma {:induction false} KeepSnoc<T>(s: seq<T>, x: T, f: T -> bool)
    ensures Keep(s + [x], f) == Keep(s, f) + (if f(x) then [x] else [])
  {
    if s == [] {
      assert s + [x] == [x] && [x][1..] == [];
    } else {
      var head, rest, last := if f(s[0]) then [s[0]] else [], Keep(s[1..], f), if f(x) then [x] else [];
      assert (s + [x])[1..] == s[1..] + [x];
      KeepSnoc(s[1..], x, f);
      assert head + (rest + last) == head + rest + last;
    }
  }

  lemma {:induction false} KeepMembers<T>(s: seq<T>, f: T -> bool)
    ensures forall x :: x in Keep(s, f) <==> x in s && f(x)
  {
    if s != [] { KeepMembers(s[1..], f); }
  }

  /** a is b with some elements left out. */
  predicate Subsequence<T(==)>(a: seq<T>, b: seq<T>) {
    a == [] || (b != [] && ((a[0] == b[0] && Subsequence(a[1..], b[1..])) || Subsequence(a, b[1..])))
  }

  lemma {:induction false} KeepIsSubsequence<T>(s: seq<T>, f: T -> bool)
    ensures Subsequence(Keep(s, f), s)
  {
    if s != [] {
      KeepIsSubsequence(s[1..], f);
      if f(s[0]) { assert Keep(s, f)[1..] == Keep(s[1..], f); } else { assert Keep(s, f) == Keep(s[1..], f); }
    }
  }

  lemma {:induction false} KeepSplits<T>(s: seq<T>, f: T -> bool, g: T -> bool)
    requires forall x :: g(x) == !f(x)
    ensures multiset(Keep(s, f)) + multiset(Keep(s, g)) == multiset(s)
  {
    if s != [] {
      KeepSplits(s[1..], f, g);
      assert s == [s[0]] + s[1..];
    }
  }

  predicate FedMetaAttr(a: Bytes) {
    IsMetadata(a) && a != ATTR_OWNER
  }

  predicate FedOtherAttr(a: Bytes) {
    !IsMetadata(a) && a != ATTR_JOBID
  }

  predicate MetaCond(q: QueryRec) {
    IsMetadata(q.attr)
  }

  predicate OtherCond(q: QueryRec) {
    !IsMetadata(q.attr)
  }

  function MetaAttrs(attrs: seq<Bytes>): seq<Bytes> {
    Keep(attrs, FedMetaAttr)
  }

  function OtherAttrs(attrs: seq<Bytes>): seq<Bytes> {
    Keep(attrs, FedOtherAttr)
  }

  function MetaQry(qry: seq<QueryRec>): seq<QueryRec> {
    Keep(qry, MetaCond)
  }

  function OtherQry(qry: seq<QueryRec>): seq<QueryRec> {
    Keep(qry, OtherCond)
  }

  /** The attributes of conditions that are not among `known`. */
  function ExtraAttrs(known: seq<Bytes>, qry: seq<QueryRec>): seq<Bytes> {
    if qry == [] then []
    else (if qry[0].attr in known then [] else [qry[0].attr]) + ExtraAttrs(known, qry[1..])
  }

  lemma {:induction false} ExtraAttrsSnoc(qs: seq<QueryRec>, q: QueryRec, known: seq<Bytes>)
    ensures ExtraAttrs(known, qs + [q]) == ExtraAttrs(known, qs) + (if q.attr !in known then [q.attr] else [])
  {
    if qs == [] {
      assert qs + [q] == [q] && [q][1..] == [];
    } else {
      assert (qs + [q])[1..] == qs[1..] + [q];
      ExtraAttrsSnoc(qs[1..], q, known);
    }
  }

  /** The first loops of run_feed_deferred: requested attributes, owner and job id
      left out because they are sent anyway. */
  method SplitAttrs(attrs: seq<Bytes>) returns (meta: seq<Bytes>, other: seq<Bytes>)
    ensures meta == MetaAttrs(attrs) && other == OtherAttrs(attrs)
  {
    meta, other := [], [];
    for i := 0 to |attrs|
      invariant meta == MetaAttrs(attrs[..i]) && other == OtherAttrs(attrs[..i])
    {
      assert attrs[..i + 1] == attrs[..i] + [attrs[i]];
      KeepSnoc(attrs[..i], attrs[i], FedMetaAttr);
      KeepSnoc(attrs[..i], attrs[i], FedOtherAttr);
      if IsMetadata(attrs[i]) {
        if attrs[i] != ATTR_OWNER { meta := meta + [attrs[i]]; }
      } else {
        if attrs[i] != ATTR_JOBID { other := other + [attrs[i]]; }
      }
    }
    assert attrs[..|attrs|] == attrs;
  }

  /** The same for query records. */
  method SplitQry(qry: seq<QueryRec>) returns (meta: seq<QueryRec>, other: seq<QueryRec>)
    ensures meta == MetaQry(qry) && other == OtherQry(qry)
  {
    meta, other := [], [];
    for i := 0 to |qry|
      invariant meta == MetaQry(qry[..i]) && other == OtherQry(qry[..i])
    {
      assert qry[..i + 1] == qry[..i] + [qry[i]];
      KeepSnoc(qry[..i], qry[i], MetaCond);
      KeepSnoc(qry[..i], qry[i], OtherCond);
      if IsMetadata(qry[i].attr) {
        meta := meta + [qry[i]];
      } else {
        other := other + [qry[i]];
      }
    }
    assert qry[..|qry|] == qry;
  }

  /** Conditions' attributes are appended to the list to fetch unless requested. */
  method ExtendOther(other: seq<Bytes>, qry: seq<QueryRec>) returns (all: seq<Bytes>)
    ensures all == other + ExtraAttrs(other, qry)
  {
    all := other;
    for i := 0 to |qry|
      invariant all == other + ExtraAttrs(other, qry[..i])
    {
      assert qry[..i + 1] == qry[..i] + [qry[i]];
      ExtraAttrsSnoc(qry[..i], qry[i], other);
      var j := 0;
      while j < |other| && other[j] != qry[i].attr
        invariant 0 <= j <= |other| && qry[i].attr !in other[..j]
      {
        j := j + 1;
      }
      if j == |other| { all := all + [qry[i].attr]; }
    }
    assert qry[..|qry|] == qry;
  }

  /** The two lists are a stable partition of the query. */
  lemma QrySplitIsPartition(qry: seq<QueryRec>)
    ensures multiset(MetaQry(qry)) + multiset(OtherQry(qry)) == multiset(qry)
    ensures forall q :: q in MetaQry(qry) <==> q in qry && IsMetadata(q.attr)
    ensures forall q :: q in OtherQry(qry) <==> q in qry && !IsMetadata(q.attr)
    ensures Subsequence(MetaQry(qry), qry) && Subsequence(OtherQry(qry), qry)
  {
    KeepSplits(qry, MetaCond, OtherCond);
    KeepMembers(qry, MetaCond);
    KeepMembers(qry, OtherCond);
    KeepIsSubsequence(qry, MetaCond);
    KeepIsSubsequence(qry, OtherCond);
  }

  lemma AttrSplitMembers(attrs: seq<Bytes>)
    ensures forall a :: a in MetaAttrs(attrs) <==> a in attrs && IsMetadata(a) && a != ATTR_OWNER
    ensures forall a :: a in OtherAttrs(attrs) <==> a in attrs && !IsMetadata(a) && a != ATTR_JOBID
  {
    KeepMembers(attrs, FedMetaAttr);
    KeepMembers(attrs, FedOtherAttr);
  }

  /** The extended list covers every condition. */
  lemma {:induction false} ExtraAttrsCover(known: seq<Bytes>, qry: seq<QueryRec>)
    ensures forall q :: q in qry ==> q.attr in known + ExtraAttrs(known, qry)
    ensures forall a :: a in ExtraAttrs(known, qry) ==> a !in known
  {
    if qry != [] {
      ExtraAttrsCover(known, qry[1..]);
    }
  }

  // ----- the two filters ------------------------------------------------------------------------------

  datatype Fetched =
    | Values(vals: seq<AttrVal>)
    | NotFound   // ENOENT
    | Failed     // any other error

  predicate ItemMatches(q: QueryRec, vals: seq<AttrVal>)
    requires forall v :: v in vals ==> Checkable(q, v)
  {
    exists j :: 0 <= j < |vals| && CheckItem(q, vals[j])
  }

  predicate AllCheckable(qs: seq<QueryRec>, vals: seq<AttrVal>) {
    forall q, v :: q in qs && v in vals ==> Checkable(q, v)
  }

  predicate Passes(qs: seq<QueryRec>, vals: seq<AttrVal>)
    requires AllCheckable(qs, vals)
  {
    forall i :: 0 <= i < |qs| ==> ItemMatches(qs[i], vals)
  }

  /** The filter loop of feed_query_callback. */
  method Filter(qs: seq<QueryRec>, other: Fetched) returns (pass: bool)
    requires other.Values? ==> AllCheckable(qs, other.vals)
    ensures pass <==> qs == [] || (other.Values? && Passes(qs, other.vals))
  {
    if qs != [] && !other.Values? { return false; }
    for i := 0 to |qs|
      invariant forall k :: 0 <= k < i ==> ItemMatches(qs[k], other.vals)
    {
      var j := 0;
      while j < |other.vals| && !CheckItem(qs[i], other.vals[j])
        invariant 0 <= j <= |other.vals|
        invariant forall k :: 0 <= k < j ==> !CheckItem(qs[i], other.vals[k])
      {
        j := j + 1;
      }
      if j == |other.vals| { return false; }
    }
    return true;
  }

  /** What the attribute store gives for a list of names: the values of each in
      turn, or ENOENT when there are none. */
  function Gather(store: Bytes -> seq<AttrVal>, names: seq<Bytes>): seq<AttrVal> {
    if names == [] then [] else store(names[0]) + Gather(store, names[1..])
  }

  function FetchFrom(store: Bytes -> seq<AttrVal>, names: seq<Bytes>): Fetched {
    if Gather(store, names) == [] then NotFound else Values(Gather(store, names))
  }

  /** The store files values under their own names. */
  ghost predicate Filed(store: Bytes -> seq<AttrVal>) {
    forall name, v :: v in store(name) ==> v.name == name
  }

  lemma {:induction false} GatherMembers(store: Bytes -> seq<AttrVal>, names: seq<Bytes>)
    requires Filed(store)
    ensures forall v :: v in Gather(store, names) <==> v.name in names && v in store(v.name)
  {
    if names != [] {
      GatherMembers(store, names[1..]);
      forall v ensures v in Gather(store, names) <==> v.name in names && v in store(v.name) {
        assert v in Gather(store, names) <==> v in store(names[0]) || v in Gather(store, names[1..]);
        assert v.name in names <==> v.name == names[0] || v.name in names[1..];
      }
    }
  }

  ghost predicate CheckableOn(q: QueryRec, store: Bytes -> seq<AttrVal>) {
    forall name, v :: v in store(name) ==> Checkable(q, v)
  }

  ghost predicate StoreCheckable(qs: seq<QueryRec>, store: Bytes -> seq<AttrVal>) {
    forall q :: q in qs ==> CheckableOn(q, store)
  }

  lemma GatherCheckable(qs: seq<QueryRec>, store: Bytes -> seq<AttrVal>, names: seq<Bytes>)
    requires Filed(store) && StoreCheckable(qs, store)
    ensures AllCheckable(qs, Gather(store, names))
  {
    GatherMembers(store, names);
  }

  lemma ItemOnGathered(q: QueryRec, store: Bytes -> seq<AttrVal>, names: seq<Bytes>)
    requires Filed(store) && CheckableOn(q, store) && q.attr in names
    requires forall v :: v in Gather(store, names) ==> Checkable(q, v)
    ensures ItemMatches(q, Gather(store, names)) <==> ItemMatches(q, store(q.attr))
  {
    GatherMembers(store, names);
    var all, own := Gather(store, names), store(q.attr);
    if ItemMatches(q, all) {
      var j :| 0 <= j < |all| && CheckItem(q, all[j]);
      assert all[j] in own;
      var k :| 0 <= k < |own| && own[k] == all[j];
    }
    if ItemMatches(q, own) {
      var j :| 0 <= j < |own| && CheckItem(q, own[j]);
      assert own[j] in all;
      var k :| 0 <= k < |all| && all[k] == own[j];
    }
  }

  /** One condition of the original query: metadata is the backend's to judge, any
      other attribute needs a stored value that passes. */
  ghost predicate Satisfied(q: QueryRec, metaSat: QueryRec -> bool, store: Bytes -> seq<AttrVal>)
    requires CheckableOn(q, store)
  {
    if IsMetadata(q.attr) then metaSat(q) else ItemMatches(q, store(q.attr))
  }

  /** Splitting preserves meaning: backend filtering on the metadata part followed by
      filtering the fetched values on the rest accepts exactly the jobs that satisfy
      the whole conjunction. */
  lemma SplitPreservesMeaning(attrs: seq<Bytes>, qry: seq<QueryRec>, metaSat: QueryRec -> bool,
                              store: Bytes -> seq<AttrVal>)
    requires Filed(store) && StoreCheckable(qry, store)
    ensures var names := OtherAttrs(attrs) + ExtraAttrs(OtherAttrs(attrs), OtherQry(qry));
      var f := FetchFrom(store, names);
      && AllCheckable(OtherQry(qry), Gather(store, names))
      && ((forall q :: q in qry ==> Satisfied(q, metaSat, store)) <==>
          (forall q :: q in MetaQry(qry) ==> metaSat(q))
          && (OtherQry(qry) == [] || (f.Values? && Passes(OtherQry(qry), f.vals))))
  {
    var others := OtherQry(qry);
    var names := OtherAttrs(attrs) + ExtraAttrs(OtherAttrs(attrs), others);
    var vals := Gather(store, names);
    KeepMembers(qry, MetaCond);
    KeepMembers(qry, OtherCond);
    ExtraAttrsCover(OtherAttrs(attrs), others);
    assert StoreCheckable(others, store);
    GatherCheckable(others, store, names);
    forall i | 0 <= i < |others|
      ensures ItemMatches(others[i], vals) <==> Satisfied(others[i], metaSat, store)
    {
      var q := others[i];
      assert q in others && q in qry;
      ItemOnGathered(q, store, names);
    }
    PassesIffSatisfied(qry, metaSat, store, vals);
  }

  lemma PassesIffSatisfied(qry: seq<QueryRec>, metaSat: QueryRec -> bool, store: Bytes -> seq<AttrVal>,
                           vals: seq<AttrVal>)
    requires StoreCheckable(qry, store) && AllCheckable(OtherQry(qry), vals)
    requires forall q :: q in MetaQry(qry) <==> q in qry && IsMetadata(q.attr)
    requires forall q :: q in OtherQry(qry) <==> q in qry && !IsMetadata(q.attr)
    requires forall i :: 0 <= i < |OtherQry(qry)| ==>
      OtherQry(qry)[i] in qry && (ItemMatches(OtherQry(qry)[i], vals) <==> Satisfied(OtherQry(qry)[i], metaSat, store))
    ensures (forall q :: q in qry ==> Satisfied(q, metaSat, store)) <==>
      (forall q :: q in MetaQry(qry) ==> metaSat(q))
      && (OtherQry(qry) == [] || (vals != [] && Passes(OtherQry(qry), vals)))
  {
    var others := OtherQry(qry);
    if (forall q :: q in MetaQry(qry) ==> metaSat(q)) && Passes(others, vals) {
      forall q | q in qry ensures Satisfied(q, metaSat, store) {
        if !IsMetadata(q.attr) {
          assert q in others;
          var i :| 0 <= i < |others| && others[i] == q;
          assert ItemMatches(others[i], vals);
        }
      }
    }
    if forall q :: q in qry ==> Satisfied(q, metaSat, store) {
      forall i | 0 <= i < |others| ensures ItemMatches(others[i], vals) {
        assert Satisfied(others[i], metaSat, store);
      }
      if others != [] { assert ItemMatches(others[0], vals); }
    }
  }

  // ----- what is sent of a job -----------------------------------------------------------------------------

  function CopiesOf(v: AttrVal, names: seq<Bytes>): seq<AttrVal> {
    if names == [] then [] else (if names[0] == v.name then [v] else []) + CopiesOf(v, names[1..])
  }

  /** The extraction loops: each value once per occurrence of its name. */
  function Extract(vals: seq<AttrVal>, names: seq<Bytes>): seq<AttrVal> {
    if vals == [] then [] else CopiesOf(vals[0], names) + Extract(vals[1..], names)
  }

  lemma {:induction false} CopiesMembers(v: AttrVal, names: seq<Bytes>)
    ensures forall w :: w in CopiesOf(v, names) <==> w == v && v.name in names
  {
    if names != [] { CopiesMembers(v, names[1..]); }
  }

  /** Exactly the values of the listed names are extracted. */
  lemma {:induction false} ExtractMembers(vals: seq<AttrVal>, names: seq<Bytes>)
    ensures forall w :: w in Extract(vals, names) <==> w in vals && w.name in names
  {
    if vals != [] {
      ExtractMembers(vals[1..], names);
      CopiesMembers(vals[0], names);
    }
  }

  /** With each name listed once, each value of a listed name is extracted once, in order. */
  lemma {:induction false} ExtractIsFilter(vals: seq<AttrVal>, names: seq<Bytes>)
    requires forall i, j :: 0 <= i < j < |names| ==> names[i] != names[j]
    ensures Extract(vals, names) == Keep(vals, (v: AttrVal) => v.name in names)
  {
    if vals != [] {
      ExtractIsFilter(vals[1..], names);
      CopiesOnce(vals[0], names);
    }
  }

  lemma {:induction false} CopiesOnce(v: AttrVal, names: seq<Bytes>)
    requires forall i, j :: 0 <= i < j < |names| ==> names[i] != names[j]
    ensures CopiesOf(v, names) == if v.name in names then [v] else []
  {
    if names != [] {
      CopiesOnce(v, names[1..]);
      assert names == [names[0]] + names[1..];
      if names[0] == v.name {
        assert forall j :: 0 <= j < |names[1..]| ==> names[1..][j] == names[j + 1];
      }
    }
  }

  /** The backend judges owner and registration time, and nothing else. */
  lemma MetadataByName(a: Bytes)
    ensures IsMetadata(a) <==>
      || a == Ascii("http://egee.cesnet.cz/en/Schema/JP/System:owner")
      || a == Ascii("http://egee.cesnet.cz/en/Schema/JP/System:regtime")
  {
  }

  /** A query on the registration time alone goes to the backend whole. */
  lemma RegistrationTimeGoesToBackend(q: QueryRec)
    requires q.attr == Ascii("http://egee.cesnet.cz/en/Schema/JP/System:regtime")
    ensures MetaQry([q]) == [q] && OtherQry([q]) == []
  {
    assert [q][1..] == [] && MetaCond(q) && !OtherCond(q);
    assert Keep([q], MetaCond) == [q] + Keep([], MetaCond);
    assert Keep([q], OtherCond) == [] + Keep([], OtherCond);
  }
}
