/** The blob in which the index server keeps the conditions of a feed: records of
    little-endian longs and length-prefixed fields, collected in a buffer that
    doubles when it is full. */
module ConditionBlob {
  import opened Text
  import opened AttrValues

  const COND_MAGIC := 0x444E4F43

  datatype CondRec = CondRec(attr: Bytes, op: QueryOp, binary: bool,
                             value: Option<Bytes>, value2: Option<Bytes>)

  /** What deserialising fills in: raw buffers, their sizes being the recorded
      lengths; the origin is left 0, that is, ANY. */
  datatype RawRec = RawRec(attr: Option<Bytes>, op: nat, binary: nat,
                           value: Option<Bytes>, value2: Option<Bytes>, origin: int)

  datatype BlobResult =
    | Conditions(recs: seq<RawRec>)
    | BadMagic   // EINVAL
    | OverRun    // a length or a cut record leads past the end of the blob

  function OpCode(op: QueryOp): nat {
    match op
    case UNDEF => 0
    case EQUAL => 1
    case UNEQUAL => 2
    case LESS => 3
    case GREATER => 4
    case WITHIN => 5
    case EXISTS => 6
  }

  /** The op_args table of the context; UNEQUAL has no entry and stays 0. */
  function OpArgs(op: QueryOp): nat {
    match op
    case WITHIN => 2
    case EQUAL => 1
    case LESS => 1
    case GREATER => 1
    case UNDEF => 0
    case UNEQUAL => 0
    case EXISTS => 0
  }

  // ----- byte order ---------------------------------------------------------------

  function LittleEndian(n: nat): (s: Bytes)
    requires n < TWO_32
    ensures |s| == 4
  {
    [n % 256, n / 256 % 256, n / 0x1_0000 % 256, n / 0x100_0000]
  }

  function FromLittleEndian(s: Bytes): (n: nat)
    requires |s| == 4
    ensures n < TWO_32
  {
    var a: int, b: int, c: int, d: int := s[0], s[1], s[2], s[3];
    ((d * 256 + c) * 256 + b) * 256 + a
  }

  /** The shifts and masks of WORD_SWAP; the two halves do not overlap. */
  function WordSwap(x: nat): (r: nat)
    ensures r < 0x1_0000
  {
    x / 256 % 256 + x % 256 * 256
  }

  function LongSwap(x: nat): (r: nat)
    ensures r < TWO_32
  {
    WordSwap(x / 0x1_0000 % 0x1_0000) + WordSwap(x) % 0x1_0000 * 0x1_0000
  }

  /** LONG_LE on a machine of the given byte order. */
  function LongLE(big: bool, x: nat): nat {
    if big then LongSwap(x) else x
  }

  /** A uint32_t in memory. */
  function InMemory(big: bool, x: nat): Bytes
    requires x < TWO_32
  {
    if big then NetworkLong(x) else LittleEndian(x)
  }

  lemma WordParts(a: nat, b: nat, high: nat)
    requires a < 256 && b < 256
    ensures WordSwap(high * 0x1_0000 + (a * 256 + b)) == b * 256 + a
  {
    var x := high * 0x1_0000 + (a * 256 + b);
    assert x % 256 == b;
    assert x / 256 == high * 256 + a;
  }

  lemma HighWord(high: nat, low: nat)
    requires high < 0x1_0000 && low < 0x1_0000
    ensures (high * 0x1_0000 + low) / 0x1_0000 % 0x1_0000 == high
  {
  }

  lemma SwapWords(high: nat, low: nat, p: nat, q: nat)
    requires high < 0x1_0000 && low < 0x1_0000
    requires WordSwap(high) == p && WordSwap(high * 0x1_0000 + low) == q
    ensures LongSwap(high * 0x1_0000 + low) == p + q * 0x1_0000
  {
    HighWord(high, low);
    assert q % 0x1_0000 == q;
  }

  lemma SwapParts(a: nat, b: nat, c: nat, d: nat)
    requires a < 256 && b < 256 && c < 256 && d < 256
    ensures LongSwap(((a * 256 + b) * 256 + c) * 256 + d) == ((d * 256 + c) * 256 + b) * 256 + a
  {
    WordParts(a, b, 0);
    WordParts(c, d, a * 256 + b);
    SwapWords(a * 256 + b, c * 256 + d, b * 256 + a, d * 256 + c);
  }

  lemma LittleEndianRoundTrip(n: nat)
    requires n < TWO_32
    ensures FromLittleEndian(LittleEndian(n)) == n
  {
    assert n / 256 / 256 == n / 0x1_0000;
    assert n / 0x1_0000 / 256 == n / 0x100_0000;
  }

  lemma NetworkLongOf(s: Bytes)
    requires |s| == 4
    ensures NetworkLong(FromNetworkLong(s)) == s
  {
    var n, a: int, b: int, c: int, d: int := FromNetworkLong(s), s[0], s[1], s[2], s[3];
    assert n == a * 0x100_0000 + (b * 0x1_0000 + c * 256 + d);
    assert n / 0x1_0000 == a * 256 + b && n / 256 == (a * 256 + b) * 256 + c;
  }

  lemma SwapReversesBytes(n: nat)
    requires n < TWO_32
    ensures LongSwap(n) == FromNetworkLong(LittleEndian(n))
  {
    var s := LittleEndian(n);
    LittleEndianRoundTrip(n);
    SwapParts(s[3], s[2], s[1], s[0]);
  }

  lemma SwapIsInvolution(n: nat)
    requires n < TWO_32
    ensures LongSwap(LongSwap(n)) == n
  {
    var s := LittleEndian(n);
    LittleEndianRoundTrip(n);
    SwapReversesBytes(n);
    SwapParts(s[0], s[1], s[2], s[3]);
  }

  /** LONG_SWAP is an involution, and the stored bytes of a long are the same on
      machines of either byte order. */
  lemma BlobIsByteOrderIndependent(n: nat, big: bool)
    requires n < TWO_32
    ensures LongSwap(LongSwap(n)) == n
    ensures InMemory(big, LongLE(big, n)) == LittleEndian(n)
  {
    SwapIsInvolution(n);
    SwapReversesBytes(n);
    NetworkLongOf(LittleEndian(n));
  }

  // ----- encoding --------------------------------------------------------------------

  /** The bytes stored for one argument. Both arguments look at op_args >= 1. */
  function ArgBytes(q: CondRec, v: Option<Bytes>): Bytes {
    if OpArgs(q.op) < 1 || v.None? then []
    else if q.binary then v.value
    else v.value + [NUL]
  }

  /** A length, cut to 32 bits, and the bytes themselves. */
  function Field(s: Bytes): Bytes {
    LittleEndian(|s| % TWO_32) + s
  }

  function RecBytes(q: CondRec): Bytes {
    LittleEndian(COND_MAGIC) + Field(q.attr + [NUL]) + LittleEndian(OpCode(q.op))
    + LittleEndian(if q.binary then 1 else 0) + Field(ArgBytes(q, q.value)) + Field(ArgBytes(q, q.value2))
  }

  function EncodeAll(qs: seq<CondRec>): Bytes {
    if qs == [] then [] else RecBytes(qs[0]) + EncodeAll(qs[1..])
  }

  // ----- decoding --------------------------------------------------------------------

  function TakeLong(s: Bytes): (r: Option<(nat, Bytes)>)
    ensures r.Some? ==> |r.value.1| < |s|
  {
    if |s| < 4 then None else Some((FromLittleEndian(s[..4]), s[4..]))
  }

  function TakeField(s: Bytes): (r: Option<(Option<Bytes>, Bytes)>)
    ensures r.Some? ==> |r.value.1| < |s|
  {
    match TakeLong(s)
    case None => None
    case Some((n, rest)) =>
      if n == 0 then Some((None, rest))
      else if n > |rest| then None
      else Some((Some(rest[..n]), rest[n..]))
  }

  datatype RecResult = Record(rec: RawRec, rest: Bytes) | Failed(result: BlobResult)

  function TakeRec(s: Bytes): (r: RecResult)
    ensures r.Record? ==> |r.rest| < |s|
    ensures r.Failed? ==> !r.result.Conditions?
  {
    match TakeLong(s)
    case None => Failed(OverRun)
    case Some((magic, s1)) => if magic != COND_MAGIC then Failed(BadMagic) else TakeBody(s1)
  }

  function TakeBody(s1: Bytes): (r: RecResult)
    ensures r.Record? ==> |r.rest| < |s1|
    ensures r.Failed? ==> !r.result.Conditions?
  {
    match TakeField(s1)
    case None => Failed(OverRun)
    case Some((attr, s2)) =>
      match TakeLong(s2)
      case None => Failed(OverRun)
      case Some((op, s3)) =>
        match TakeLong(s3)
        case None => Failed(OverRun)
        case Some((binary, s4)) => TakeArgs(attr, op, binary, s4)
  }

  function TakeArgs(attr: Option<Bytes>, op: nat, binary: nat, s4: Bytes): (r: RecResult)
    ensures r.Record? ==> |r.rest| < |s4|
    ensures r.Failed? ==> !r.result.Conditions?
  {
    match TakeField(s4)
    case None => Failed(OverRun)
    case Some((value, s5)) =>
      match TakeField(s5)
      case None => Failed(OverRun)
      case Some((value2, s6)) => Record(RawRec(attr, op, binary, value, value2, ORIG_ANY), s6)
  }

  function DecodeAll(s: Bytes): BlobResult
    decreases |s|
  {
    if s == [] then Conditions([])
    else
      match TakeRec(s)
      case Failed(r) => r
      case Record(rec, rest) =>
        match DecodeAll(rest)
        case Conditions(recs) => Conditions([rec] + recs)
        case r => r
  }

  // ----- round trip ---------------------------------------------------------------------

  function RawArg(s: Bytes): Option<Bytes> {
    if s == [] then None else Some(s)
  }

  function Raw(q: CondRec): RawRec {
    RawRec(Some(q.attr + [NUL]), OpCode(q.op), if q.binary then 1 else 0,
           RawArg(ArgBytes(q, q.value)), RawArg(ArgBytes(q, q.value2)), ORIG_ANY)
  }

  predicate LengthsFit(q: CondRec) {
    |q.attr| + 1 < TWO_32 && |ArgBytes(q, q.value)| < TWO_32 && |ArgBytes(q, q.value2)| < TWO_32
  }

  lemma TakeWrittenLong(n: nat, rest: Bytes)
    requires n < TWO_32
    ensures TakeLong(LittleEndian(n) + rest) == Some((n, rest))
  {
    LittleEndianRoundTrip(n);
    var s := LittleEndian(n) + rest;
    assert s[..4] == LittleEndian(n) && s[4..] == rest;
  }

  lemma FieldShape(s: Bytes, rest: Bytes)
    requires |s| < TWO_32
    ensures Field(s) + rest == LittleEndian(|s|) + (s + rest)
  {
    assert |s| % TWO_32 == |s|;
    Associate(LittleEndian(|s|), s, rest);
  }

  lemma TakeWrittenField(s: Bytes, rest: Bytes)
    requires |s| < TWO_32
    ensures TakeField(Field(s) + rest) == Some((RawArg(s), rest))
  {
    FieldShape(s, rest);
    TakeWrittenLong(|s|, s + rest);
    assert (s + rest)[..|s|] == s && (s + rest)[|s|..] == rest;
  }

  lemma TakeWrittenArgs(q: CondRec, rest: Bytes)
    requires LengthsFit(q)
    ensures TakeArgs(Some(q.attr + [NUL]), OpCode(q.op), if q.binary then 1 else 0,
                     Field(ArgBytes(q, q.value)) + (Field(ArgBytes(q, q.value2)) + rest)) == Record(Raw(q), rest)
  {
    TakeWrittenField(ArgBytes(q, q.value), Field(ArgBytes(q, q.value2)) + rest);
    TakeWrittenField(ArgBytes(q, q.value2), rest);
  }

  lemma TakeWrittenRec(q: CondRec, rest: Bytes)
    requires LengthsFit(q)
    ensures TakeRec(RecBytes(q) + rest) == Record(Raw(q), rest)
  {
    var s4 := Field(ArgBytes(q, q.value)) + (Field(ArgBytes(q, q.value2)) + rest);
    var kind := if q.binary then 1 else 0;
    var s3 := LittleEndian(kind) + s4;
    var s2 := LittleEndian(OpCode(q.op)) + s3;
    var s1 := Field(q.attr + [NUL]) + s2;
    RecShape(q, rest, s4);
    TakeWrittenLong(COND_MAGIC, s1);
    TakeWrittenField(q.attr + [NUL], s2);
    TakeWrittenLong(OpCode(q.op), s3);
    TakeWrittenLong(kind, s4);
    TakeWrittenArgs(q, rest);
  }

  lemma RecShape(q: CondRec, rest: Bytes, s4: Bytes)
    requires s4 == Field(ArgBytes(q, q.value)) + (Field(ArgBytes(q, q.value2)) + rest)
    ensures RecBytes(q) + rest
            == LittleEndian(COND_MAGIC) + (Field(q.attr + [NUL]) + (LittleEndian(OpCode(q.op))
               + (LittleEndian(if q.binary then 1 else 0) + s4)))
  {
  }

  function RawAll(qs: seq<CondRec>): seq<RawRec> {
    seq(|qs|, i requires 0 <= i < |qs| => Raw(qs[i]))
  }

  lemma RawAllCons(qs: seq<CondRec>)
    requires qs != []
    ensures RawAll(qs) == [Raw(qs[0])] + RawAll(qs[1..])
  {
  }

  lemma DecodeCons(head: Bytes, tail: Bytes, rec: RawRec, recs: seq<RawRec>)
    requires head != [] && TakeRec(head + tail) == Record(rec, tail) && DecodeAll(tail) == Conditions(recs)
    ensures DecodeAll(head + tail) == Conditions([rec] + recs)
  {
  }

  /** Deserialising a serialised list stops exactly at its end and yields one
      record per condition, in order. */
  lemma {:induction false} DecodeEncodeAll(qs: seq<CondRec>)
    requires forall i :: 0 <= i < |qs| ==> LengthsFit(qs[i])
    ensures DecodeAll(EncodeAll(qs)) == Conditions(RawAll(qs))
  {
    if qs != [] {
      DecodeEncodeAll(qs[1..]);
      TakeWrittenRec(qs[0], EncodeAll(qs[1..]));
      RawAllCons(qs);
      DecodeCons(RecBytes(qs[0]), EncodeAll(qs[1..]), Raw(qs[0]), RawAll(qs[1..]));
    }
  }

  /** How the C code reads a restored buffer: sized when binary, else up to the NUL. */
  function ReadArg(binary: nat, v: Option<Bytes>): Option<Bytes> {
    if v.None? || binary != 0 then v else Some(v.value[..StrLen(v.value)])
  }

  /** The operator a stored number stands for, by its place in the enumeration. */
  function OperatorOf(code: nat): Option<QueryOp> {
    if code == 0 then Some(UNDEF)
    else if code == 1 then Some(EQUAL)
    else if code == 2 then Some(UNEQUAL)
    else if code == 3 then Some(LESS)
    else if code == 4 then Some(GREATER)
    else if code == 5 then Some(WITHIN)
    else if code == 6 then Some(EXISTS)
    else None
  }

  /** The condition a restored record is used as. */
  function AsCond(raw: RawRec): Option<CondRec> {
    if raw.attr.None? || OperatorOf(raw.op).None? then None
    else
      Some(CondRec(raw.attr.value[..StrLen(raw.attr.value)], OperatorOf(raw.op).value, raw.binary != 0,
                   ReadArg(raw.binary, raw.value), ReadArg(raw.binary, raw.value2)))
  }

  /** Read as that very condition, its origin being ANY. */
  predicate Restores(raw: RawRec, q: CondRec) {
    AsCond(raw) == Some(q) && raw.origin == ORIG_ANY
  }

  predicate IsText(q: CondRec) {
    && NulFree(q.attr)
    && (!q.binary ==> (q.value.Some? ==> NulFree(q.value.value)) && (q.value2.Some? ==> NulFree(q.value2.value)))
  }

  /** The lists the blob is good for: EQUAL, LESS, GREATER and WITHIN with any values,
      other operators without; and no present but empty binary value. */
  predicate BlobSafe(q: CondRec) {
    && (q.op in {EQUAL, LESS, GREATER, WITHIN} || (q.value.None? && q.value2.None?))
    && (q.binary ==> q.value != Some([]) && q.value2 != Some([]))
  }

  lemma ArgRestored(q: CondRec, v: Option<Bytes>)
    requires !q.binary && v.Some? ==> NulFree(v.value)
    ensures ReadArg(if q.binary then 1 else 0, RawArg(ArgBytes(q, v))) == v
            <==> (q.op in {EQUAL, LESS, GREATER, WITHIN} || v.None?) && !(q.binary && v == Some([]))
  {
    if v.Some? && OpArgs(q.op) >= 1 && !q.binary {
      StrLenOf(v.value, []);
      assert v.value + [NUL] + [] == v.value + [NUL];
    }
  }

  lemma OperatorSurvives(op: QueryOp)
    ensures OperatorOf(OpCode(op)) == Some(op)
  {
  }

  /** A condition survives the blob if and only if it is BlobSafe. */
  lemma ConditionSurvivesIff(q: CondRec)
    requires IsText(q)
    ensures Restores(Raw(q), q) <==> BlobSafe(q)
  {
    StrLenOf(q.attr, []);
    assert q.attr + [NUL] + [] == q.attr + [NUL];
    assert (q.attr + [NUL])[..|q.attr|] == q.attr;
    ArgRestored(q, q.value);
    ArgRestored(q, q.value2);
    OperatorSurvives(q.op);
  }

  /** The blob of any list is read back to its end, one record per condition, and
      exactly the BlobSafe conditions come back as they were. */
  lemma BlobRoundTrip(qs: seq<CondRec>)
    requires forall i :: 0 <= i < |qs| ==> IsText(qs[i]) && LengthsFit(qs[i])
    ensures var r := DecodeAll(EncodeAll(qs));
      && r.Conditions? && |r.recs| == |qs|
      && forall i :: 0 <= i < |qs| ==> (Restores(r.recs[i], qs[i]) <==> BlobSafe(qs[i]))
  {
    DecodeEncodeAll(qs);
    forall i | 0 <= i < |qs|
      ensures (Restores(RawAll(qs)[i], qs[i]) <==> BlobSafe(qs[i]))
    {
      ConditionSurvivesIff(qs[i]);
    }
  }

  /** A blob whose next record does not start with COND is refused, a cut one is read
      past its end. */
  lemma ForeignBlob(qs: seq<CondRec>, rest: Bytes)
    requires (forall i :: 0 <= i < |qs| ==> LengthsFit(qs[i])) && rest != []
    requires |rest| < 4 || rest[..4] != [67, 79, 78, 68]
    ensures DecodeAll(EncodeAll(qs) + rest) == if |rest| < 4 then OverRun else BadMagic
  {
    if qs == [] {
      assert [] + rest == rest;
      if |rest| >= 4 && FromLittleEndian(rest[..4]) == COND_MAGIC { MagicBytes(rest[..4]); }
    } else {
      ForeignBlob(qs[1..], rest);
      Associate(RecBytes(qs[0]), EncodeAll(qs[1..]), rest);
      TakeWrittenRec(qs[0], EncodeAll(qs[1..]) + rest);
    }
  }

  lemma MagicBytes(s: Bytes)
    requires |s| == 4 && FromLittleEndian(s) == COND_MAGIC
    ensures s == [67, 79, 78, 68]
  {
  }

  predicate SafeList(qs: seq<CondRec>) {
    forall i :: 0 <= i < |qs| ==> IsText(qs[i]) && LengthsFit(qs[i]) && BlobSafe(qs[i])
  }

  /** Different lists of safe conditions have different blobs. */
  lemma BlobIsInjective(one: seq<CondRec>, two: seq<CondRec>)
    requires SafeList(one) && SafeList(two) && EncodeAll(one) == EncodeAll(two)
    ensures one == two
  {
    BlobRoundTrip(one);
    BlobRoundTrip(two);
    var recs := DecodeAll(EncodeAll(one)).recs;
    forall i | 0 <= i < |one| ensures one[i] == two[i] {
      assert Restores(recs[i], one[i]) && Restores(recs[i], two[i]);
    }
  }

  /** UNEQUAL loses its value. */
  lemma UnequalIsNotRestored()
    ensures var q := CondRec([97], UNEQUAL, false, Some([98]), None);
      IsText(q) && LengthsFit(q) && DecodeAll(EncodeAll([q])) == Conditions([Raw(q)]) && !Restores(Raw(q), q)
  {
    var q := CondRec([97], UNEQUAL, false, Some([98]), None);
    DecodeEncodeAll([q]);
    assert RawAll([q]) == [Raw(q)];
    ConditionSurvivesIff(q);
  }

  // ----- the growing buffer ------------------------------------------------------------------

  class GrowBuffer {
    var data: array<byte>
    var len: nat
    var maxlen: nat

    ghost predicate Valid()
      reads this
    {
      len <= maxlen == data.Length && maxlen > 0
    }

    ghost function Contents(): Bytes
      requires Valid()
      reads this, data
    {
      data[..len]
    }

    /** array_init */
    constructor (initial: nat)
      requires initial > 0
      ensures Valid() && fresh(data) && Contents() == []
    {
      data := new byte[initial];
      len, maxlen := 0, initial;
    }

    /** array_add: doubles the room until the new bytes fit, keeping all earlier ones. */
    method Add(bytes: Bytes)
      requires Valid()
      modifies this, data
      ensures Valid() && (data == old(data) || fresh(data))
      ensures Contents() == old(Contents()) + bytes
    {
      var ptr := len;
      len := len + |bytes|;
      if len > maxlen {
        var room := maxlen * 2;
        while len > room
          invariant room >= maxlen * 2
          decreases len - room
        {
          room := room * 2;
        }
        var tmp := new byte[room];
        forall i | 0 <= i < ptr { tmp[i] := data[i]; }
        assert tmp[..ptr] == old(data[..ptr]);
        data, maxlen := tmp, room;
      }
      Put(data, ptr, bytes);
    }

    /** array_add_long on a machine of the given byte order. */
    method AddLong(big: bool, n: nat)
      requires Valid()
      modifies this, data
      ensures Valid() && (data == old(data) || fresh(data))
      ensures Contents() == old(Contents()) + LittleEndian(n % TWO_32)
    {
      BlobIsByteOrderIndependent(n % TWO_32, big);
      Add(InMemory(big, LongLE(big, n % TWO_32)));
    }

    method AddField(big: bool, bytes: Bytes)
      requires Valid()
      modifies this, data
      ensures Valid() && (data == old(data) || fresh(data))
      ensures Contents() == old(Contents()) + Field(bytes)
    {
      AddLong(big, |bytes|);
      Add(bytes);
    }
  }

  lemma {:induction false} EncodeSnoc(qs: seq<CondRec>, q: CondRec)
    ensures EncodeAll(qs + [q]) == EncodeAll(qs) + RecBytes(q)
  {
    if qs == [] {
      assert qs + [q] == [q];
      assert EncodeAll([q]) == RecBytes(q) + EncodeAll([]);
    } else {
      assert (qs + [q])[1..] == qs[1..] + [q];
      EncodeSnoc(qs[1..], q);
    }
  }

  lemma EncodePrefix(qs: seq<CondRec>, i: nat)
    requires i < |qs|
    ensures EncodeAll(qs[..i + 1]) == EncodeAll(qs[..i]) + RecBytes(qs[i])
  {
    assert qs[..i + 1] == qs[..i] + [qs[i]];
    EncodeSnoc(qs[..i], qs[i]);
  }

  /** glite_jpis_db_queries_serialize; arg lengths are taken for operators above UNDEF only. */
  method Serialize(big: bool, qs: seq<CondRec>) returns (blob: GrowBuffer)
    requires forall i :: 0 <= i < |qs| ==> qs[i].op != UNDEF
    ensures fresh(blob) && fresh(blob.data) && blob.Valid() && blob.Contents() == EncodeAll(qs)
  {
    blob := new GrowBuffer(1024);
    for i := 0 to |qs|
      invariant fresh(blob) && fresh(blob.data) && blob.Valid()
      invariant blob.Contents() == EncodeAll(qs[..i])
    {
      EncodePrefix(qs, i);
      SerializeOne(big, qs[i], blob);
    }
    assert qs[..|qs|] == qs;
  }

  method SerializeOne(big: bool, q: CondRec, blob: GrowBuffer)
    requires blob.Valid()
    modifies blob, blob.data
    ensures blob.Valid() && (blob.data == old(blob.data) || fresh(blob.data))
    ensures blob.Contents() == old(blob.Contents()) + RecBytes(q)
  {
    SerializeName(big, q.attr, blob);
    SerializeKind(big, q.op, q.binary, blob);
    blob.AddField(big, ArgBytes(q, q.value));
    blob.AddField(big, ArgBytes(q, q.value2));
    RecSplit(q, old(blob.Contents()));
  }

  function NameBytes(attr: Bytes): Bytes {
    LittleEndian(COND_MAGIC) + Field(attr + [NUL])
  }

  function KindBytes(op: QueryOp, binary: bool): Bytes {
    LittleEndian(OpCode(op)) + LittleEndian(if binary then 1 else 0)
  }

  lemma RecSplit(q: CondRec, before: Bytes)
    ensures before + NameBytes(q.attr) + KindBytes(q.op, q.binary)
            + Field(ArgBytes(q, q.value)) + Field(ArgBytes(q, q.value2)) == before + RecBytes(q)
  {
  }

  method SerializeName(big: bool, attr: Bytes, blob: GrowBuffer)
    requires blob.Valid()
    modifies blob, blob.data
    ensures blob.Valid() && (blob.data == old(blob.data) || fresh(blob.data))
    ensures blob.Contents() == old(blob.Contents()) + NameBytes(attr)
  {
    blob.AddLong(big, COND_MAGIC);
    blob.AddField(big, attr + [NUL]);
  }

  method SerializeKind(big: bool, op: QueryOp, binary: bool, blob: GrowBuffer)
    requires blob.Valid()
    modifies blob, blob.data
    ensures blob.Valid() && (blob.data == old(blob.data) || fresh(blob.data))
    ensures blob.Contents() == old(blob.Contents()) + KindBytes(op, binary)
  {
    var code, kind := OpCode(op), if binary then 1 else 0;
    blob.AddLong(big, code);
    blob.AddLong(big, kind);
    assert code % TWO_32 == code && kind % TWO_32 == kind;
    Associate(old(blob.Contents()), LittleEndian(code), LittleEndian(kind));
  }

  function Prepend(done: seq<RawRec>, r: BlobResult): BlobResult {
    match r
    case Conditions(recs) => Conditions(done + recs)
    case _ => r
  }

  lemma DecodeStep(s: Bytes, done: seq<RawRec>)
    requires s != []
    ensures match TakeRec(s)
      case Failed(e) => Prepend(done, DecodeAll(s)) == e
      case Record(rec, rest) => Prepend(done, DecodeAll(s)) == Prepend(done + [rec], DecodeAll(rest))
  {
    if TakeRec(s).Record? {
      var rec, tail := TakeRec(s).rec, DecodeAll(TakeRec(s).rest);
      if tail.Conditions? {
        assert done + ([rec] + tail.recs) == done + [rec] + tail.recs;
      }
    }
  }

  /** glite_jpis_db_queries_deserialize: the blob pointer, kept as the bytes
      behind it, moves from record to record until it meets the end. */
  method Deserialize(blob: Bytes) returns (r: BlobResult)
    ensures r == DecodeAll(blob)
  {
    var queries: seq<RawRec> := [];
    var ptr := blob;
    ghost var whole := DecodeAll(blob);
    assert whole == Prepend([], whole);
    while ptr != []
      invariant whole == Prepend(queries, DecodeAll(ptr))
      decreases |ptr|
    {
      DecodeStep(ptr, queries);
      match TakeRec(ptr) {
        case Failed(e) => return e;
        case Record(rec, rest) =>
          queries, ptr := queries + [rec], rest;
      }
    }
    assert DecodeAll(ptr) == Conditions([]) && queries + [] == queries;
    r := Conditions(queries);
  }
}
