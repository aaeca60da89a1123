/** The union of attribute lists, by sorting and removing duplicates in place. */
module AttrUnion {
  import opened Text

  predicate Sorted(s: seq<Bytes>) {
    forall i, j :: 0 <= i < j < |s| ==> Lex(s[i], s[j]) <= 0
  }

  predicate StrictlySorted(s: seq<Bytes>) {
    forall i, j :: 0 <= i < j < |s| ==> Lex(s[i], s[j]) < 0
  }

  function Elems(s: seq<Bytes>): set<Bytes> {
    set x | x in s
  }

  // ----- qsort ----------------------------------------------------------------------

  function Insert(x: Bytes, s: seq<Bytes>): (r: seq<Bytes>)
    ensures multiset(r) == multiset{x} + multiset(s)
  {
    if s == [] || Lex(x, s[0]) <= 0 then [x] + s
    else
      assert s == [s[0]] + s[1..];
      [s[0]] + Insert(x, s[1..])
  }

  /** qsort with attr_void_cmp: some sorted permutation; here by insertion. */
  function Sort(s: seq<Bytes>): (r: seq<Bytes>)
    ensures multiset(r) == multiset(s)
  {
    if s == [] then []
    else
      assert s == [s[0]] + s[1..];
      Insert(s[0], Sort(s[1..]))
  }

  lemma {:induction false} InsertSorted(x: Bytes, s: seq<Bytes>)
    requires Sorted(s)
    ensures Sorted(Insert(x, s))
  {
    if s == [] {
    } else if Lex(x, s[0]) <= 0 {
      forall j | 0 <= j < |s| ensures Lex(x, s[j]) <= 0 {
        if j > 0 { LexTransitive(x, s[0], s[j]); }
      }
    } else {
      InsertSorted(x, s[1..]);
      LexAntisymmetric(x, s[0]);
      var r := Insert(x, s[1..]);
      forall j | 0 <= j < |r| ensures Lex(s[0], r[j]) <= 0 {
        assert r[j] in multiset(r);
        assert r[j] == x || r[j] in s[1..];
      }
    }
  }

  lemma {:induction false} SortSorts(s: seq<Bytes>)
    ensures Sorted(Sort(s)) && Elems(Sort(s)) == Elems(s) && |Sort(s)| == |s|
  {
    if s != [] {
      SortSorts(s[1..]);
      InsertSorted(s[0], Sort(s[1..]));
    }
    assert forall x :: x in Sort(s) <==> x in multiset(Sort(s));
    assert forall x :: x in s <==> x in multiset(s);
    assert |multiset(Sort(s))| == |multiset(s)|;
  }

  // ----- removing duplicates ------------------------------------------------------------

  /** The entries before i are final; equal entries follow one another. */
  ghost predicate Progress(v: seq<Bytes>, i: nat, all: set<Bytes>) {
    i <= |v| && Sorted(v) && Elems(v) == all
    && forall k, l :: 0 <= k < i && k < l < |v| ==> Lex(v[k], v[l]) < 0
  }

  lemma DropRunElems(v: seq<Bytes>, i: nat, j: nat)
    requires i < j <= |v| && forall k :: i <= k < j ==> v[k] == v[i]
    ensures Elems(v[..i + 1] + v[j..]) == Elems(v)
  {
    var w := v[..i + 1] + v[j..];
    forall x | x in v ensures x in w {
      var k :| 0 <= k < |v| && v[k] == x;
      assert if k <= i then w[k] == x else if k < j then w[i] == x else w[k - j + i + 1] == x;
    }
  }

  lemma DropRunOrder(v: seq<Bytes>, i: nat, j: nat, l: nat)
    requires Sorted(v) && i < j <= l < |v| && v[j] != v[i]
    ensures Lex(v[i], v[l]) < 0
  {
    assert Lex(v[i], v[j]) < 0;
    if j < l {
      LexTransitive(v[i], v[j], v[l]);
    }
  }

  /** Dropping the copies of v[i] that follow it. */
  lemma DropRun(v: seq<Bytes>, i: nat, j: nat, all: set<Bytes>)
    requires Progress(v, i, all) && i < j <= |v|
    requires forall k :: i <= k < j ==> v[k] == v[i]
    requires j < |v| ==> v[j] != v[i]
    ensures Progress(v[..i + 1] + v[j..], i + 1, all)
  {
    var w := v[..i + 1] + v[j..];
    DropRunElems(v, i, j);
    forall l | i < l < |w| ensures Lex(w[i], w[l]) < 0 {
      DropRunOrder(v, i, j, l - i - 1 + j);
    }
  }

  /** The inner loop: the end of the run of entries equal to out[i]. */
  method RunEnd(out: array<Bytes>, cnt: nat, i: nat) returns (j: nat)
    requires i < cnt <= out.Length
    ensures i < j <= cnt
    ensures forall k :: i <= k < j ==> out[..cnt][k] == out[..cnt][i]
    ensures j < cnt ==> out[..cnt][j] != out[..cnt][i]
  {
    j := i;
    while j < cnt && out[i] == out[j]
      invariant i <= j <= cnt
      invariant forall k :: i <= k < j ==> out[k] == out[i]
    {
      j := j + 1;
    }
  }

  /** The memmove that closes the gap behind out[i]. */
  method Squeeze(out: array<Bytes>, cnt: nat, i: nat, j: nat)
    requires i < j <= cnt <= out.Length
    modifies out
    ensures out[..cnt - (j - i - 1)] == old(out[..i + 1] + out[j..cnt])
  {
    if j < cnt && j > i + 1 {
      forall k | 0 <= k < cnt - j { out[i + 1 + k] := out[j + k]; }
    }
  }

  /** One turn of the outer loop. */
  method SqueezeRun(out: array<Bytes>, cnt: nat, i: nat, ghost all: set<Bytes>) returns (left: nat)
    requires i < cnt <= out.Length && Progress(out[..cnt], i, all)
    modifies out
    ensures i < left <= cnt && Progress(out[..left], i + 1, all)
  {
    ghost var v := out[..cnt];
    var j := RunEnd(out, cnt, i);
    DropRun(v, i, j, all);
    assert out[..i + 1] + out[j..cnt] == v[..i + 1] + v[j..];
    Squeeze(out, cnt, i, j);
    left := cnt - (j - i - 1);
  }

  method Dedup(out: array<Bytes>, ghost all: set<Bytes>) returns (cnt: nat)
    requires Progress(out[..], 0, all)
    modifies out
    ensures cnt <= out.Length && Progress(out[..cnt], cnt, all)
  {
    cnt := out.Length;
    assert out[..cnt] == out[..];
    var i := 0;
    while i < cnt
      invariant 0 <= i <= cnt <= out.Length
      invariant Progress(out[..cnt], i, all)
      decreases cnt - i
    {
      cnt := SqueezeRun(out, cnt, i, all);
      i := i + 1;
    }
  }

  /** attr_union: both lists copied, sorted and squeezed. None when the assertion
      that something is left fails. */
  method Union(a: seq<Bytes>, b: seq<Bytes>) returns (c: Option<seq<Bytes>>)
    ensures c.None? <==> a == [] && b == []
    ensures c.Some? ==> StrictlySorted(c.value) && c.value != [] && Elems(c.value) == Elems(a) + Elems(b)
  {
    var sorted := Sort(a + b);
    SortSorts(a + b);
    var out := new Bytes[|sorted|](k requires 0 <= k < |sorted| => sorted[k]);
    assert out[..] == sorted;
    ghost var all := Elems(a) + Elems(b);
    assert Elems(a + b) == all;
    var cnt := Dedup(out, all);
    FirstElement(a);
    FirstElement(b);
    FirstElement(out[..cnt]);
    if cnt == 0 {
      return None;
    }
    c := Some(out[..cnt]);
  }

  lemma FirstElement(s: seq<Bytes>)
    ensures s == [] <==> Elems(s) == {}
  {
    if s != [] { assert s[0] in Elems(s); }
  }

  function Requested(feeds: seq<seq<Bytes>>): set<Bytes> {
    if feeds == [] then {} else Requested(feeds[..|feeds| - 1]) + Elems(feeds[|feeds| - 1])
  }

  /** The loop of match_file_deferred over all feeds: every attribute any feed
      asks for, once. None when the first feed asks for nothing. */
  method UnionOfFeeds(feeds: seq<seq<Bytes>>) returns (attrs: Option<seq<Bytes>>)
    ensures attrs.None? <==> feeds != [] && feeds[0] == []
    ensures attrs.Some? ==> StrictlySorted(attrs.value) && Elems(attrs.value) == Requested(feeds)
  {
    var list: seq<Bytes> := [];
    for i := 0 to |feeds|
      invariant StrictlySorted(list) && Elems(list) == Requested(feeds[..i])
      invariant i == 0 ==> list == []
      invariant i > 0 ==> list != [] && feeds[0] != []
    {
      var u := Union(list, feeds[i]);
      if u.None? { return None; }
      assert feeds[..i + 1][..i] == feeds[..i];
      list := u.value;
    }
    assert feeds[..|feeds|] == feeds;
    attrs := Some(list);
  }

  lemma {:induction false} RequestedByAny(feeds: seq<seq<Bytes>>, x: Bytes)
    ensures x in Requested(feeds) <==> exists i :: 0 <= i < |feeds| && x in feeds[i]
  {
    if feeds != [] {
      RequestedByAny(feeds[..|feeds| - 1], x);
      var last := |feeds| - 1;
      assert forall i :: 0 <= i < last ==> feeds[..last][i] == feeds[i];
    }
  }
}
