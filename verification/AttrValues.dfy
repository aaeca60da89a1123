/** Attribute values: their order, their database form and their truncated
    index form, as the fallback type plugin defines them. */
module AttrValues {
  import opened Text
  import Base64

  // Origins, in the order of the C enumeration.
  const ORIG_ANY := 0
  const ORIG_SYSTEM := 1
  const ORIG_USER := 2
  const ORIG_FILE := 3

  const ORIG_CHARS: Bytes := [65, 83, 85, 70] // "ASUF"

  datatype AttrVal = AttrVal(name: Bytes, value: Bytes, binary: bool, origin: int,
                             detail: Option<Bytes>, timestamp: int)

  /** What the C types allow: text fields hold no NUL. */
  predicate WellFormed(a: AttrVal) {
    && NulFree(a.name)
    && (a.binary || NulFree(a.value))
    && (a.detail.Some? ==> NulFree(a.detail.value))
  }

  predicate Is32Bit(n: int) {
    -0x8000_0000 <= n < 0x8000_0000
  }

  /** The value %d prints for a wider argument. */
  function AsInt32(n: int): (r: int)
    ensures Is32Bit(r)
    ensures Is32Bit(n) ==> r == n
  {
    (n + 0x8000_0000) % TWO_32 - 0x8000_0000
  }

  // ----- colon escaping --------------------------------------------------------

  function Escape(d: Bytes): (r: Bytes)
    ensures |d| <= |r| <= 2 * |d|
    ensures NulFree(d) ==> NulFree(r)
  {
    if d == [] then []
    else if d[0] == COLON then [BACKSLASH, COLON] + Escape(d[1..])
    else if d[0] == BACKSLASH then [BACKSLASH, BACKSLASH] + Escape(d[1..])
    else [d[0]] + Escape(d[1..])
  }

  /** Reads up to the first unescaped colon or the end of the text. Returns the
      unescaped text and the number of bytes read, or None when a final
      backslash makes the C code step over the terminator. */
  function Unescape(s: Bytes): (r: Option<(Bytes, nat)>)
    ensures r.Some? ==> |r.value.0| <= r.value.1 <= |s|
  {
    if s == [] || s[0] == COLON then Some(([], 0))
    else if s[0] == BACKSLASH then
      if |s| == 1 then None
      else
        match Unescape(s[2..])
        case None => None
        case Some((t, n)) => Some(([s[1]] + t, n + 2))
    else
      match Unescape(s[1..])
      case None => None
      case Some((t, n)) => Some(([s[0]] + t, n + 1))
  }

  lemma UnescapePlain(c: byte, t: Bytes)
    requires c != COLON && c != BACKSLASH && Unescape(t).Some?
    ensures Unescape([c] + t) == Some(([c] + Unescape(t).value.0, Unescape(t).value.1 + 1))
  {
    assert ([c] + t)[1..] == t;
  }

  lemma UnescapePair(c: byte, t: Bytes)
    requires Unescape(t).Some?
    ensures Unescape([BACKSLASH, c] + t) == Some(([c] + Unescape(t).value.0, Unescape(t).value.1 + 2))
  {
    assert ([BACKSLASH, c] + t)[2..] == t;
  }

  lemma EscapeCons(d: Bytes, rest: Bytes)
    requires d != []
    ensures Escape(d) + rest
            == (if d[0] == COLON || d[0] == BACKSLASH then [BACKSLASH, d[0]] else [d[0]]) + (Escape(d[1..]) + rest)
  {
  }

  /** Unescaping consumes exactly the escaped prefix, whatever follows the colon. */
  lemma {:induction false} UnescapeEscape(d: Bytes, rest: Bytes)
    ensures Unescape(Escape(d) + ([COLON] + rest)) == Some((d, |Escape(d)|))
  {
    if d == [] {
      assert Escape(d) + ([COLON] + rest) == [COLON] + rest;
    } else {
      UnescapeEscape(d[1..], rest);
      var c, tail := d[0], Escape(d[1..]) + ([COLON] + rest);
      EscapeCons(d, [COLON] + rest);
      assert d == [c] + d[1..];
      if c == COLON || c == BACKSLASH {
        UnescapePair(c, tail);
      } else {
        UnescapePlain(c, tail);
      }
    }
  }

  lemma {:induction false} EscapeSnoc(d: Bytes, c: byte)
    ensures Escape(d + [c]) == Escape(d) + Escape([c])
  {
    if d == [] {
      assert d + [c] == [c];
      assert Escape([c]) == Escape(d) + Escape([c]);
    } else {
      assert (d + [c])[1..] == d[1..] + [c];
      EscapeSnoc(d[1..], c);
    }
  }

  /** What one turn of escape_colon adds. */
  lemma EscapeTurn(input: Bytes, i: nat, before: Bytes)
    requires i < |input|
    ensures Escape(input[..i + 1]) == Escape(input[..i]) + Escape([input[i]])
    ensures before + Escape(input[..i + 1]) == before + Escape(input[..i]) + Escape([input[i]])
    ensures |Escape(input[..i + 1])| == |Escape(input[..i])| + |Escape([input[i]])|
  {
    assert input[..i + 1] == input[..i] + [input[i]];
    EscapeSnoc(input[..i], input[i]);
  }

  /** One turn of escape_colon: writes a byte, behind a backslash where needed. */
  method PutEscaped(c: byte, out: array<byte>, at: nat) returns (n: nat)
    requires at + 2 <= out.Length
    modifies out
    ensures n == |Escape([c])| <= 2 && out[..at + n] == old(out[..at]) + Escape([c])
  {
    assert [c][1..] == [];
    if c == COLON || c == BACKSLASH {
      out[at], out[at + 1] := BACKSLASH, c;
      n := 2;
    } else {
      out[at] := c;
      n := 1;
    }
  }

  /** escape_colon: writes the escaped text and a terminator at position `at`. */
  method EscapeColon(input: Bytes, out: array<byte>, at: nat) returns (o: nat)
    requires at + 2 * |input| < out.Length
    modifies out
    ensures o == |Escape(input)|
    ensures out[..at + o] == old(out[..at]) + Escape(input) && out[at + o] == NUL
  {
    o := 0;
    for i := 0 to |input|
      invariant o == |Escape(input[..i])| <= 2 * i
      invariant out[..at + o] == old(out[..at]) + Escape(input[..i])
    {
      EscapeTurn(input, i, old(out[..at]));
      var n := PutEscaped(input[i], out, at + o);
      o := o + n;
    }
    out[at + o] := NUL;
    assert input[..|input|] == input;
  }

  lemma {:induction false} UnescapeStep(s: Bytes, i: nat)
    requires i < |s| && s[i] != COLON
    requires s[i] == BACKSLASH ==> i + 1 < |s|
    ensures var k := if s[i] == BACKSLASH then 2 else 1;
      Unescape(s[i..]) == match Unescape(s[i + k..])
                          case None => None
                          case Some((t, n)) => Some(([s[i + k - 1]] + t, n + k))
  {
    if s[i] == BACKSLASH {
      assert s[i..][2..] == s[i + 2..];
    } else {
      assert s[i..][1..] == s[i + 1..];
    }
  }

  /** The first pass of unescape_colon, which sizes the output; -1 when the C
      code would read past the terminator. */
  method CountUnescaped(s: Bytes) returns (o: int)
    ensures o == if Unescape(s).Some? then |Unescape(s).value.0| else -1
  {
    var i := 0;
    o := 0;
    while i < |s| && s[i] != COLON
      invariant 0 <= i <= |s| && o >= 0
      invariant Unescape(s).Some? <==> Unescape(s[i..]).Some?
      invariant Unescape(s).Some? ==> o + |Unescape(s[i..]).value.0| == |Unescape(s).value.0|
    {
      if s[i] == BACKSLASH && i + 1 == |s| {
        assert s[i..] == [BACKSLASH];
        return -1;
      }
      UnescapeStep(s, i);
      i, o := i + (if s[i] == BACKSLASH then 2 else 1), o + 1;
    }
  }

  /** What the second pass has to do from position i on: the text and the end. */
  ghost predicate Left(s: Bytes, i: nat, text: Bytes, end: nat) {
    i <= end && i <= |s| && Unescape(s[i..]) == Some((text, end - i))
  }

  lemma LeftAtStart(s: Bytes)
    requires Unescape(s).Some?
    ensures Left(s, 0, Unescape(s).value.0, Unescape(s).value.1)
  {
    assert s[0..] == s;
  }

  lemma LeftAtEnd(s: Bytes, i: nat, text: Bytes, end: nat)
    requires Left(s, i, text, end) && (i == |s| || s[i] == COLON)
    ensures text == [] && end == i
  {
  }

  /** One turn of the second pass. */
  lemma LeftTurn(s: Bytes, i: nat, text: Bytes, end: nat) returns (k: nat)
    requires Left(s, i, text, end) && i < |s| && s[i] != COLON
    ensures k == (if s[i] == BACKSLASH then 2 else 1) && i + k <= |s|
    ensures text != [] && text[0] == s[i + k - 1] && Left(s, i + k, text[1..], end)
  {
    assert |s[i..]| == |s| - i && s[i..][0] == s[i];
    UnescapeStep(s, i);
    k := if s[i] == BACKSLASH then 2 else 1;
    assert text[1..] == Unescape(s[i + k..]).value.0;
  }

  lemma MoveOver(done: Bytes, left: Bytes)
    requires left != []
    ensures done + left == done + [left[0]] + left[1..]
  {
  }

  method PutByte(out: array<byte>, o: nat, c: byte)
    requires o < out.Length
    modifies out
    ensures out[..o + 1] == old(out[..o]) + [c]
  {
    out[o] := c;
  }

  /** unescape_colon: one pass to size the output, a second one to fill it.
      None when the C code would read past the terminator. */
  method UnescapeColon(s: Bytes) returns (r: Option<(Bytes, nat)>)
    ensures r == Unescape(s)
  {
    var size := CountUnescaped(s);
    if size < 0 { return None; }
    var out := new byte[size];
    var i, o := 0, 0;
    ghost var text, end := Unescape(s).value.0, Unescape(s).value.1;
    ghost var done, left := [], text;
    LeftAtStart(s);
    while i < |s| && s[i] != COLON
      invariant 0 <= i <= |s| && 0 <= o == |done| <= out.Length && out[..o] == done
      invariant Left(s, i, left, end) && text == done + left
    {
      ghost var k := LeftTurn(s, i, left, end);
      if s[i] == BACKSLASH {
        i := i + 1;
      }
      MoveOver(done, left);
      PutByte(out, o, s[i]);
      done, left := done + [s[i]], left[1..];
      i, o := i + 1, o + 1;
    }
    LeftAtEnd(s, i, left, end);
    assert done + [] == done;
    assert out[..] == out[..o];
    return Some((out[..], i));
  }

  // ----- full database form --------------------------------------------------------

  /** fb_to_db_full: kind, timestamp, origin, escaped detail and value, separated
      by colons. None for an origin outside the enumeration. */
  function ToDbFull(a: AttrVal): Option<Bytes> {
    if a.origin < ORIG_ANY || a.origin > ORIG_FILE then None
    else Some(DbHead(a) + DbDetail(a) + [COLON] + DbValue(a))
  }

  function DbHead(a: AttrVal): Bytes
    requires ORIG_ANY <= a.origin <= ORIG_FILE
  {
    [if a.binary then KIND_BINARY else KIND_STRING, COLON] + Decimal(AsInt32(a.timestamp))
    + [COLON, ORIG_CHARS[a.origin], COLON]
  }

  function DbDetail(a: AttrVal): Bytes {
    if a.detail.Some? then Escape(a.detail.value) else []
  }

  function DbValue(a: AttrVal): Bytes {
    if a.binary then Base64.Encode(a.value) else a.value
  }

  datatype DbResult =
    | Decoded(attr: AttrVal)
    | Invalid      // EINVAL
    | BadSize      // 0 returned with the decoder's -1 stored as an unsigned size
    | OverRead     // the C code reads past the terminator

  /** The position of c in "ASUF", or 4. */
  function OriginIndex(c: byte): (k: nat)
    ensures k <= 4
    ensures k < 4 ==> ORIG_CHARS[k] == c
  {
    if c == 65 then 0 else if c == 83 then 1 else if c == 85 then 2 else if c == 70 then 3 else 4
  }

  /** fb_from_db */
  function FromDb(name: Bytes, str: Bytes): DbResult {
    if str == [] || (str[0] != KIND_BINARY && str[0] != KIND_STRING) then Invalid
    else if |str| == 1 then OverRead
    else
      var k := IndexOf(str[2..], COLON);
      if 2 + k == |str| then Invalid
      else
        var time := ParseLong(str[2..2 + k]).0;
        FromDbOrigin(name, str[0] == KIND_BINARY, time, str[3 + k..])
  }

  datatype FieldsResult =
    | Fields(origin: int, detail: Option<Bytes>, text: Bytes)
    | BadFields(result: DbResult)

  /** The origin and its detail, up to the colon in front of the value. */
  function ReadFields(s: Bytes): (r: FieldsResult)
    ensures r.BadFields? ==> !r.result.Decoded?
  {
    if s == [] || OriginIndex(s[0]) == 4 then BadFields(Invalid)
    else if |s| == 1 then BadFields(OverRead)
    else ReadDetail(OriginIndex(s[0]), s[2..])
  }

  function ReadDetail(origin: int, t: Bytes): (r: FieldsResult)
    ensures r.BadFields? ==> !r.result.Decoded?
  {
    match Unescape(t)
    case None => BadFields(OverRead)
    case Some((detail, n)) =>
      if n == |t| || t[n] != COLON then BadFields(Invalid)
      else Fields(origin, if t[0] == COLON then None else Some(detail), t[n + 1..])
  }

  /** The part of fb_from_db after the timestamp. */
  function FromDbOrigin(name: Bytes, binary: bool, time: int, s: Bytes): DbResult {
    match ReadFields(s)
    case BadFields(r) => r
    case Fields(origin, detail, text) =>
      match PlainValue(binary, text)
      case None => BadSize
      case Some(v) => Decoded(AttrVal(name, v, binary, origin, detail, time))
  }

  function PlainValue(binary: bool, v: Bytes): Option<Bytes> {
    if binary then Base64.Decode(v) else Some(v)
  }

  /** An empty origin detail is stored like an absent one. */
  function Normal(a: AttrVal): AttrVal {
    if a.detail == Some([]) then a.(detail := None) else a
  }

  lemma OriginRoundTrip(k: int)
    requires 0 <= k <= 3
    ensures OriginIndex(ORIG_CHARS[k]) == k
  {
  }

  /** Everything behind the timestamp. */
  function DbTail(a: AttrVal): Bytes
    requires ORIG_ANY <= a.origin <= ORIG_FILE
  {
    [ORIG_CHARS[a.origin], COLON] + (DbDetail(a) + ([COLON] + DbValue(a)))
  }

  lemma ReadWrittenFields(k: int, d: Bytes, v: Bytes)
    requires 0 <= k <= 3
    ensures ReadFields([ORIG_CHARS[k], COLON] + (Escape(d) + ([COLON] + v)))
            == Fields(k, if d == [] then None else Some(d), v)
  {
    var e := Escape(d);
    var t := e + ([COLON] + v);
    OriginRoundTrip(k);
    assert ([ORIG_CHARS[k], COLON] + t)[2..] == t;
    UnescapeEscape(d, v);
    assert t[|e|] == COLON && t[|e| + 1..] == v;
    assert d != [] ==> t[0] == e[0];
  }

  lemma DetailRoundTrip(a: AttrVal)
    requires ORIG_ANY <= a.origin <= ORIG_FILE
    ensures FromDbOrigin(a.name, a.binary, a.timestamp, DbTail(a)) == Decoded(Normal(a))
  {
    ReadWrittenFields(a.origin, if a.detail.Some? then a.detail.value else [], DbValue(a));
    Base64.DecodeEncode(a.value);
  }

  lemma DbFullShape(a: AttrVal)
    requires ORIG_ANY <= a.origin <= ORIG_FILE && Is32Bit(a.timestamp)
    ensures var time := Decimal(a.timestamp);
      ToDbFull(a).value == [if a.binary then KIND_BINARY else KIND_STRING, COLON] + (time + [COLON] + DbTail(a))
  {
  }

  /** Where the pieces of a stored value are found. */
  lemma DbParts(str: Bytes, kind: byte, time: Bytes, tail: Bytes)
    requires str == [kind, COLON] + (time + [COLON] + tail)
    ensures str[0] == kind && |str| == 3 + |time| + |tail|
    ensures str[2..] == time + [COLON] + tail
    ensures str[2..2 + |time|] == time && str[3 + |time|..] == tail
  {
  }

  lemma DbFormIsText(a: AttrVal)
    requires WellFormed(a) && ORIG_ANY <= a.origin <= ORIG_FILE
    ensures NulFree(ToDbFull(a).value)
  {
    DecimalHasNo(AsInt32(a.timestamp), NUL);
    assert NulFree(DbHead(a)) && NulFree(DbDetail(a)) && NulFree(DbValue(a));
  }

  lemma FromDbParts(name: Bytes, binary: bool, timestamp: int, tail: Bytes)
    ensures FromDb(name, [if binary then KIND_BINARY else KIND_STRING, COLON] + (Decimal(timestamp) + [COLON] + tail))
            == FromDbOrigin(name, binary, timestamp, tail)
  {
    var time, kind := Decimal(timestamp), if binary then KIND_BINARY else KIND_STRING;
    DbParts([kind, COLON] + (time + [COLON] + tail), kind, time, tail);
    DecimalHasNo(timestamp, COLON);
    IndexOfFirst(time, COLON, tail);
    ParsePrintedLong(timestamp, []);
    assert time + [] == time;
  }

  /** Whatever to_db_full stores, from_db restores. */
  lemma DatabaseRoundTrip(a: AttrVal)
    requires WellFormed(a) && ORIG_ANY <= a.origin <= ORIG_FILE && Is32Bit(a.timestamp)
    ensures ToDbFull(a).Some? && NulFree(ToDbFull(a).value)
    ensures FromDb(a.name, ToDbFull(a).value) == Decoded(Normal(a))
  {
    DbFormIsText(a);
    DbFullShape(a);
    FromDbParts(a.name, a.binary, a.timestamp, DbTail(a));
    DetailRoundTrip(a);
  }

  /** What from_db reads a kind, an origin and a name from; other kinds and origins are
      refused. */
  lemma FromDbReads(name: Bytes, str: Bytes)
    ensures str == [] || (str[0] != 66 && str[0] != 83) ==> FromDb(name, str) == Invalid
    ensures FromDb(name, str).Decoded? ==>
      var a, k := FromDb(name, str).attr, IndexOf(str[2..], COLON);
      && a.name == name && (a.binary <==> str[0] == 66) && 0 <= a.origin <= 3
      && 3 + k < |str| && str[3 + k] == [65, 83, 85, 70][a.origin]
  {
    if |str| >= 2 && FromDb(name, str).Decoded? {
      var k := IndexOf(str[2..], COLON);
      var s := str[3 + k..];
      assert ReadFields(s).Fields?;
      assert s[0] == str[3 + k];
    }
  }

  /** Two values share a database form only if they agree up to an empty detail. */
  lemma DatabaseFormIsInjective(a: AttrVal, b: AttrVal)
    requires WellFormed(a) && ORIG_ANY <= a.origin <= ORIG_FILE && Is32Bit(a.timestamp)
    requires WellFormed(b) && ORIG_ANY <= b.origin <= ORIG_FILE && Is32Bit(b.timestamp)
    requires a.name == b.name
    ensures ToDbFull(a) == ToDbFull(b) <==> Normal(a) == Normal(b)
  {
    DatabaseRoundTrip(a);
    DatabaseRoundTrip(b);
  }

  /** memcpy / sprintf / strcpy into a buffer. */
  method Put(buffer: array<byte>, at: nat, s: Bytes)
    requires at + |s| <= buffer.Length
    modifies buffer
    ensures buffer[..at + |s|] == old(buffer[..at]) + s
  {
    for i := 0 to |s|
      invariant buffer[..at + i] == old(buffer[..at]) + s[..i]
    {
      buffer[at + i] := s[i];
      assert buffer[..at + i + 1] == old(buffer[..at]) + s[..i + 1];
    }
  }

  /** The space fb_to_db_full reserves for the value: for binary values the
      encoder is offered all of it but one byte. */
  function ValueSize(a: AttrVal): (vsize: nat)
    ensures |DbValue(a)| < vsize
  {
    if a.binary then |a.value| * 4 / 3 + 6 else |a.value| + 1
  }

  /** The space it reserves for the escaped detail. */
  function DetailRoom(a: AttrVal): nat {
    if a.detail.Some? then 2 * |a.detail.value| else 0
  }

  lemma HeadSize(a: AttrVal)
    requires ORIG_ANY <= a.origin <= ORIG_FILE
    ensures |DbHead(a)| <= 16
  {
    Int32Length(AsInt32(a.timestamp));
  }

  /** The last step: the value and its terminator. */
  method PutValue(buffer: array<byte>, len: nat, ghost head: Bytes, value: Bytes) returns (ghost used: nat)
    requires len + |value| < buffer.Length && buffer[..len] == head
    modifies buffer
    ensures used == len + |value| && buffer[used] == NUL && buffer[..used] == head + value
  {
    Put(buffer, len, value + [NUL]);
    used := len + |value|;
    assert buffer[..used + 1] == head + value + [NUL];
    assert buffer[..used] == buffer[..used + 1][..used] && buffer[used] == buffer[..used + 1][used];
  }

  /** The first steps: kind, timestamp, origin and escaped detail, each
      overwriting the terminator of the one before. */
  method PutHead(a: AttrVal, buffer: array<byte>) returns (len: nat)
    requires ORIG_ANY <= a.origin <= ORIG_FILE
    requires buffer.Length >= 19 + DetailRoom(a)
    modifies buffer
    ensures len < buffer.Length - 1 && buffer[..len] == DbHead(a) + DbDetail(a)
    ensures len <= 16 + DetailRoom(a)
  {
    HeadSize(a);
    var head := DbHead(a);
    var _ := PutValue(buffer, 0, [], head);
    assert [] + head == head;
    len := |head|;
    if a.detail.Some? {
      var n := EscapeColon(a.detail.value, buffer, len);
      len := len + n;
    } else {
      assert head + [] == head;
    }
  }

  /** fb_to_db_full: every byte, terminators included, lands inside the
      19 + 2 * |detail| + vsize bytes allocated. */
  method FbToDbFull(a: AttrVal) returns (db: array?<byte>, ghost used: nat)
    ensures db == null <==> ToDbFull(a).None?
    ensures db != null ==> fresh(db) && db.Length == 19 + DetailRoom(a) + ValueSize(a)
    ensures db != null ==> used < db.Length && db[used] == NUL && Some(db[..used]) == ToDbFull(a)
  {
    var buffer := new byte[19 + DetailRoom(a) + ValueSize(a)];
    if a.origin < ORIG_ANY || a.origin > ORIG_FILE {
      return null, 0;
    }
    var len := PutHead(a, buffer);
    buffer[len] := COLON;
    ghost var head := DbHead(a) + DbDetail(a) + [COLON];
    assert buffer[..len + 1] == buffer[..len] + [COLON] == head;
    used := PutValue(buffer, len + 1, head, DbValue(a));
    db := buffer;
  }

  // ----- order ---------------------------------------------------------------------

  function Min(x: nat, y: nat): nat {
    if x > y then y else x
  }

  /** fb_cmp; None is EINVAL. */
  function FbCmp(a: AttrVal, b: AttrVal): Option<int> {
    if a.binary != b.binary then None
    else if a.binary then
      var r := MemCmp(a.value, b.value, Min(|a.value|, |b.value|));
      Some(if r == 0 && |a.value| != |b.value| then (if |a.value| > |b.value| then 1 else -1) else r)
    else Some(StrCmp(a.value, b.value))
  }

  lemma {:induction false} MemCmpIsLex(a: Bytes, b: Bytes)
    ensures var r := MemCmp(a, b, Min(|a|, |b|));
      Lex(a, b) == if r == 0 && |a| != |b| then (if |a| > |b| then 1 else -1) else r
  {
    if a != [] && b != [] && a[0] == b[0] {
      MemCmpIsLex(a[1..], b[1..]);
    }
  }

  lemma FbCmpIsLex(a: AttrVal, b: AttrVal)
    requires WellFormed(a) && WellFormed(b)
    ensures FbCmp(a, b) == if a.binary == b.binary then Some(Lex(a.value, b.value)) else None
  {
    if a.binary == b.binary {
      if a.binary {
        MemCmpIsLex(a.value, b.value);
      } else {
        StrCmpIsLex(a.value, b.value);
      }
    }
  }

  /** fb_cmp is a total order on comparable values, and equal means identical. */
  lemma FbCmpIsTotalOrder(a: AttrVal, b: AttrVal, c: AttrVal)
    requires WellFormed(a) && WellFormed(b) && WellFormed(c)
    requires a.binary == b.binary == c.binary
    ensures FbCmp(a, b).Some? && FbCmp(b, a) == Some(-FbCmp(a, b).value)
    ensures FbCmp(a, b) == Some(0) <==> a.value == b.value
    ensures FbCmp(b, c).Some? && FbCmp(a, c).Some?
    ensures FbCmp(a, b).value <= 0 && FbCmp(b, c).value <= 0 ==> FbCmp(a, c).value <= 0
  {
    FbCmpIsLex(a, b);
    FbCmpIsLex(b, a);
    FbCmpIsLex(b, c);
    FbCmpIsLex(a, c);
    LexAntisymmetric(a.value, b.value);
    if Lex(a.value, b.value) <= 0 && Lex(b.value, c.value) <= 0 {
      LexTransitive(a.value, b.value, c.value);
    }
  }

  // ----- truncated index form ---------------------------------------------------------

  const INDEX_LENGTH := 255

  function Truncate(s: Bytes, len: nat): Bytes {
    if len < |s| then s[..len] else s
  }

  /** fb_to_db_index */
  function ToDbIndex(a: AttrVal, len: nat): Bytes {
    if a.binary then [88, 88, 88] // "XXX"
    else Truncate(a.value, len)
  }

  lemma {:induction false} TruncateMonotone(a: Bytes, b: Bytes, len: nat)
    requires Lex(a, b) <= 0
    ensures Lex(Truncate(a, len), Truncate(b, len)) <= 0
  {
    if a != [] && b != [] && len > 0 && a[0] == b[0] {
      TruncateMonotone(a[1..], b[1..], len - 1);
      var x, y := Truncate(a, len), Truncate(b, len);
      assert x[1..] == Truncate(a[1..], len - 1);
      assert y[1..] == Truncate(b[1..], len - 1);
    }
  }

  /** The index form is non-decreasing with respect to fb_cmp, for every length. */
  lemma IndexIsMonotone(a: AttrVal, b: AttrVal, len: nat)
    requires WellFormed(a) && WellFormed(b)
    requires FbCmp(a, b).Some? && FbCmp(a, b).value <= 0
    ensures StrCmp(ToDbIndex(a, len), ToDbIndex(b, len)) <= 0
  {
    FbCmpIsLex(a, b);
    var x, y := ToDbIndex(a, len), ToDbIndex(b, len);
    StrCmpIsLex(x, y);
    if !a.binary {
      TruncateMonotone(a.value, b.value, len);
    }
  }

  datatype QueryOp = UNDEF | EQUAL | UNEQUAL | LESS | GREATER | WITHIN | EXISTS

  /** The comparison an operator asks for; WITHIN uses both bounds. */
  predicate Compare(op: QueryOp, v: Bytes, lo: Bytes, hi: Bytes) {
    match op
    case EQUAL => Lex(v, lo) == 0
    case UNEQUAL => Lex(v, lo) != 0
    case LESS => Lex(v, lo) < 0
    case GREATER => Lex(v, lo) > 0
    case WITHIN => Lex(v, lo) >= 0 && Lex(v, hi) <= 0
    case EXISTS => true
    case UNDEF => false
  }

  /** Where two strings first differ, the smaller byte or the end comes first. */
  predicate Before(a: Bytes, b: Bytes) {
    exists k :: 0 <= k <= |a| && k < |b| && a[..k] == b[..k] && (k == |a| || a[k] < b[k])
  }

  lemma {:induction false} LexIsBefore(a: Bytes, b: Bytes)
    ensures Lex(a, b) < 0 <==> Before(a, b)
  {
    if a != [] && b != [] && a[0] == b[0] {
      LexIsBefore(a[1..], b[1..]);
      if Before(a[1..], b[1..]) {
        var c, d := a[1..], b[1..];
        var k :| 0 <= k <= |c| && k < |d| && c[..k] == d[..k] && (k == |c| || c[k] < d[k]);
        assert a[..k + 1] == [a[0]] + c[..k] && b[..k + 1] == [b[0]] + d[..k];
      }
      if Before(a, b) {
        var k :| 0 <= k <= |a| && k < |b| && a[..k] == b[..k] && (k == |a| || a[k] < b[k]);
        assert k > 0;
        assert a[1..][..k - 1] == a[..k][1..] && b[1..][..k - 1] == b[..k][1..];
      }
    } else if a != [] && b != [] {
      if a[0] < b[0] { assert a[..0] == b[..0]; }
      if Before(a, b) {
        var k :| 0 <= k <= |a| && k < |b| && a[..k] == b[..k] && (k == |a| || a[k] < b[k]);
        if k > 0 { assert a[..k][0] == b[..k][0]; }
      }
    } else if a == [] && b != [] {
      assert a[..0] == b[..0];
    }
  }

  /** What the operators ask for, said by the bytes. */
  lemma CompareMeans(v: Bytes, lo: Bytes, hi: Bytes)
    ensures Compare(EQUAL, v, lo, hi) <==> v == lo
    ensures Compare(UNEQUAL, v, lo, hi) <==> v != lo
    ensures Compare(LESS, v, lo, hi) <==> Before(v, lo)
    ensures Compare(GREATER, v, lo, hi) <==> Before(lo, v)
    ensures Compare(WITHIN, v, lo, hi) <==> !Before(v, lo) && !Before(hi, v)
  {
    LexIsBefore(v, lo);
    LexIsBefore(lo, v);
    LexIsBefore(hi, v);
    LexAntisymmetric(v, lo);
    LexAntisymmetric(v, hi);
  }

  predicate CompareIndex(op: QueryOp, v: Bytes, lo: Bytes, hi: Bytes, len: nat) {
    Compare(op, Truncate(v, len), Truncate(lo, len), Truncate(hi, len))
  }

  /** EQUAL and WITHIN on the index never miss a match; LESS, GREATER and UNEQUAL
      never report a non-match. */
  lemma IndexComparisonIsOneSided(op: QueryOp, v: Bytes, lo: Bytes, hi: Bytes, len: nat)
    ensures op in {EQUAL, WITHIN} && Compare(op, v, lo, hi) ==> CompareIndex(op, v, lo, hi, len)
    ensures op in {LESS, GREATER, UNEQUAL} && CompareIndex(op, v, lo, hi, len) ==> Compare(op, v, lo, hi)
  {
    LexAntisymmetric(v, lo);
    LexAntisymmetric(v, hi);
    LexAntisymmetric(Truncate(v, len), Truncate(lo, len));
    if Lex(v, lo) >= 0 { TruncateMonotone(lo, v, len); }
    if Lex(v, lo) <= 0 { TruncateMonotone(v, lo, len); }
    if Lex(v, hi) <= 0 { TruncateMonotone(v, hi, len); }
  }

  predicate IndexAgrees(op: QueryOp, v: Bytes, lo: Bytes, hi: Bytes, len: nat) {
    CompareIndex(op, v, lo, hi, len) <==> Compare(op, v, lo, hi)
  }

  /** What a caller can check: the bounds of the query, against the index length. */
  predicate BoundsFitIndex(op: QueryOp, lo: Bytes, hi: Bytes, len: nat) {
    match op
    case EQUAL => |lo| < len
    case UNEQUAL => |lo| < len
    case GREATER => |lo| < len
    case LESS => |lo| <= len
    case WITHIN => (|lo| <= len && |hi| < len) || Lex(Truncate(lo, len), Truncate(hi, len)) > 0
    case EXISTS => true
    case UNDEF => true
  }

  /** Truncating only v never changes which side of a short bound it lies on. */
  lemma {:induction false} TruncateAgainstShort(v: Bytes, q: Bytes, len: nat)
    requires |q| <= len
    ensures Lex(v, q) < 0 <==> Lex(Truncate(v, len), q) < 0
    ensures |q| < len ==> Lex(v, q) == Lex(Truncate(v, len), q)
  {
    if v != [] && q != [] && v[0] == q[0] {
      TruncateAgainstShort(v[1..], q[1..], len - 1);
      assert Truncate(v, len)[1..] == Truncate(v[1..], len - 1);
    }
  }

  lemma BoundsFitIsEnough(op: QueryOp, v: Bytes, lo: Bytes, hi: Bytes, len: nat)
    requires BoundsFitIndex(op, lo, hi, len)
    ensures IndexAgrees(op, v, lo, hi, len)
  {
    if op == WITHIN && Lex(Truncate(lo, len), Truncate(hi, len)) > 0 {
      var x, y, z := Truncate(lo, len), Truncate(v, len), Truncate(hi, len);
      LexAntisymmetric(x, y);
      if Lex(y, x) >= 0 && Lex(y, z) <= 0 {
        LexTransitive(x, y, z);
      }
      IndexComparisonIsOneSided(op, v, lo, hi, len);
    } else if op != EXISTS && op != UNDEF {
      TruncateAgainstShort(v, lo, len);
      if op == WITHIN {
        TruncateAgainstShort(v, hi, len);
      }
    }
  }

  lemma {:induction false} ExtensionIsGreater(q: Bytes, b: byte)
    ensures Lex(q + [b], q) > 0 && Lex(q, q + [b]) < 0
  {
    if q != [] {
      assert (q + [b])[1..] == q[1..] + [b];
      ExtensionIsGreater(q[1..], b);
    }
  }

  lemma {:induction false} PrefixIsLess(q: Bytes, n: nat)
    requires n < |q|
    ensures Lex(q[..n], q) < 0
  {
    if n > 0 {
      assert q[..n][1..] == q[1..][..n - 1];
      PrefixIsLess(q[1..], n - 1);
    }
  }

  /** A stored value on which the index and the full comparison differ. */
  function Counterexample(op: QueryOp, lo: Bytes, hi: Bytes, len: nat): Bytes {
    if op == WITHIN then (if |lo| > len then lo[..len] else hi + [1])
    else if |lo| > len && op != GREATER then lo[..len]
    else lo + [1]
  }

  lemma CounterexampleDisagrees(op: QueryOp, lo: Bytes, hi: Bytes, len: nat)
    requires NulFree(lo) && NulFree(hi) && !BoundsFitIndex(op, lo, hi, len)
    ensures NulFree(Counterexample(op, lo, hi, len))
    ensures !IndexAgrees(op, Counterexample(op, lo, hi, len), lo, hi, len)
  {
    var v := Counterexample(op, lo, hi, len);
    ExtensionIsGreater(lo, 1);
    ExtensionIsGreater(hi, 1);
    if |lo| > len {
      PrefixIsLess(lo, len);
      assert Truncate(lo[..len], len) == Truncate(lo, len);
    }
    if |lo| >= len {
      assert (lo + [1])[..len] == lo[..len];
      assert Truncate(lo + [1], len) == Truncate(lo, len);
    }
    if op == WITHIN {
      LexAntisymmetric(Truncate(lo, len), Truncate(hi, len));
      if |lo| <= len {
        assert (hi + [1])[..len] == hi[..len];
        assert Truncate(v, len) == Truncate(hi, len);
      }
    }
  }

  /** The index answers a comparison exactly, for every stored value, if and only
      if the bounds fit: shorter than the index for all operators but LESS and a
      lower bound, which may also have exactly the index length. */
  lemma IndexExactIff(op: QueryOp, lo: Bytes, hi: Bytes, len: nat)
    requires NulFree(lo) && NulFree(hi)
    ensures (forall v: Bytes | NulFree(v) :: IndexAgrees(op, v, lo, hi, len)) <==> BoundsFitIndex(op, lo, hi, len)
  {
    if BoundsFitIndex(op, lo, hi, len) {
      forall v: Bytes | NulFree(v)
        ensures IndexAgrees(op, v, lo, hi, len)
      {
        BoundsFitIsEnough(op, v, lo, hi, len);
      }
    } else {
      CounterexampleDisagrees(op, lo, hi, len);
    }
  }

  /** All comparisons are exact between values that fit the index. */
  lemma IndexExactOnShortValues(op: QueryOp, v: Bytes, lo: Bytes, hi: Bytes, len: nat)
    requires |v| <= len && |lo| <= len && |hi| <= len
    ensures IndexAgrees(op, v, lo, hi, len)
  {
  }
}
