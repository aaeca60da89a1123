/** User tags: an append-only file of length-prefixed records behind a magic
    number, one file per job. */
module Tags {
  import opened Text
  import opened FileHandles

  const TAGS_MAGIC := 0x74c016f2
  const MAGIC_BYTES: Bytes := NetworkLong(TAGS_MAGIC)

  /** A tag handed to tag_append. */
  datatype Tag = Tag(name: Bytes, timestamp: int, binary: bool, value: Option<Bytes>)

  /** A tag read back; its origin is always USER and its size field stays 0. */
  datatype ReadTag = ReadTag(name: Bytes, timestamp: int, binary: bool, value: Bytes)

  // ----- record format ---------------------------------------------------------------

  function Payload(t: Tag): Bytes {
    if t.value.None? then [] else t.value.value
  }

  function Header(t: Tag): Bytes {
    Decimal(t.timestamp) + [SPACE, if t.binary then KIND_BINARY else KIND_STRING]
  }

  function Body(t: Tag): Bytes {
    t.name + [NUL] + (Header(t) + [NUL] + Payload(t))
  }

  /** A length, cut to 32 bits, in front of a body. */
  function Frame(body: Bytes): Bytes {
    NetworkLong(|body| % TWO_32) + body
  }

  function Record(t: Tag): Bytes {
    Frame(Body(t))
  }

  function Records(ts: seq<Tag>): Bytes {
    if ts == [] then [] else Record(ts[0]) + Records(ts[1..])
  }

  /** The file holding a history. */
  function Image(ts: seq<Tag>): Bytes {
    MAGIC_BYTES + Records(ts)
  }

  predicate WellFormed(t: Tag) {
    && NulFree(t.name)
    && (!t.binary && t.value.Some? ==> NulFree(t.value.value))
    && |Body(t)| < TWO_32
  }

  // ----- reading ------------------------------------------------------------------------

  datatype Status =
    | Good
    | Error(code: int)
    | Hang        // the body loop keeps reading 0 bytes
    | Undefined   // a string runs off the record, or the kind is never set

  datatype Parsed = Parsed(tag: ReadTag) | Bad(status: Status)

  /** sscanf with "%ld %c". */
  function ScanHeader(h: Bytes): Option<(int, byte)> {
    var (v, n) := ParseLong(h);
    if n == 0 || !IsDigit(h[n - 1]) then None else ScanKind(v, h[n..])
  }

  function ScanKind(v: int, s: Bytes): Option<(int, byte)> {
    if s == [] then None else if s[0] == SPACE then ScanKind(v, s[1..]) else Some((v, s[0]))
  }

  /** The record parser of tagsread. */
  function ParseBody(rec: Bytes): (r: Parsed)
    ensures r.Bad? ==> r.status == Undefined || r.status == Error(EINVAL)
  {
    var n := StrLen(rec);
    if n == |rec| then Bad(Undefined) else ParseRest(rec[..n], rec[n + 1..])
  }

  function ParseRest(name: Bytes, s: Bytes): (r: Parsed)
    ensures r.Bad? ==> r.status == Undefined || r.status == Error(EINVAL)
  {
    var n := StrLen(s);
    if n == |s| then Bad(Undefined)
    else
      match ScanHeader(s[..n])
      case None => Bad(Undefined)
      case Some((time, kind)) =>
        if kind != KIND_BINARY && kind != KIND_STRING then Bad(Error(EINVAL))
        else Parsed(ReadTag(name, time, kind == KIND_BINARY, TextOf(kind == KIND_BINARY, s[n + 1..])))
  }

  /** String values are used up to their terminator. */
  function TextOf(binary: bool, v: Bytes): Bytes {
    if binary then v else v[..StrLen(v)]
  }

  /** The handle after tagsread: what it collected, and how reading ended. */
  datatype Collected = Collected(tags: seq<ReadTag>, status: Status)

  /** The record loop of tagsread from a file offset on, with its record parser. */
  function ReadFrom(parse: Bytes -> Parsed, s: Bytes, off: nat, done: seq<ReadTag>): Collected
    requires off <= |s|
    decreases |s| - off
  {
    if off == |s| then Collected(done, Good)
    else if off + 4 > |s| then Collected(done, Error(EIO))
    else
      var rlen := FromNetworkLong(s[off..off + 4]);
      if off + 4 + rlen > |s| then Collected(done, Hang)
      else
        match parse(s[off + 4..off + 4 + rlen])
        case Bad(status) => Collected([], status)
        case Parsed(t) => ReadFrom(parse, s, off + 4 + rlen, done + [t])
  }

  function ReadFile(s: Bytes): Collected {
    if |s| < 4 then Collected([], Error(EIO))
    else if s[..4] != MAGIC_BYTES then Collected([], Error(EINVAL))
    else ReadFrom(ParseBody, s, 4, [])
  }

  /** What a tag reads back as. */
  function Restored(t: Tag): ReadTag {
    ReadTag(t.name, t.timestamp, t.binary, Payload(t))
  }

  function RestoredAll(ts: seq<Tag>): seq<ReadTag> {
    if ts == [] then [] else [Restored(ts[0])] + RestoredAll(ts[1..])
  }

  lemma ScanPrintedHeader(t: Tag)
    ensures ScanHeader(Header(t)) == Some((t.timestamp, if t.binary then KIND_BINARY else KIND_STRING))
  {
    var kind := if t.binary then KIND_BINARY else KIND_STRING;
    var d, s := Decimal(t.timestamp), [SPACE, kind];
    ParsePrintedLong(t.timestamp, s);
    assert Header(t)[|d|..] == s && Header(t)[|d| - 1] == d[|d| - 1];
    assert ScanKind(t.timestamp, s) == ScanKind(t.timestamp, [kind]) by {
      assert s[1..] == [kind];
    }
  }

  lemma TextOfPayload(t: Tag)
    requires WellFormed(t)
    ensures TextOf(t.binary, Payload(t)) == Payload(t)
  {
    if !t.binary {
      var v := Payload(t);
      if StrLen(v) < |v| { assert v[StrLen(v)] in v; }
      assert v[..|v|] == v;
    }
  }

  lemma HeaderIsText(t: Tag)
    ensures NulFree(Header(t))
  {
    DecimalHasNo(t.timestamp, NUL);
  }

  lemma ParseWrittenRest(t: Tag)
    requires WellFormed(t)
    ensures ParseRest(t.name, Header(t) + [NUL] + Payload(t)) == Parsed(Restored(t))
  {
    var h := Header(t);
    var s := h + [NUL] + Payload(t);
    HeaderIsText(t);
    StrLenOf(h, Payload(t));
    assert s[..|h|] == h && s[|h| + 1..] == Payload(t);
    ScanPrintedHeader(t);
    TextOfPayload(t);
  }

  /** A string value is read up to its first NUL, a binary one whole. */
  lemma ParseValue(name: Bytes, t: Tag, v: Bytes, more: Bytes)
    requires NulFree(v)
    ensures ParseRest(name, Header(t) + [NUL] + (v + [NUL] + more))
         == Parsed(ReadTag(name, t.timestamp, t.binary, if t.binary then v + [NUL] + more else v))
  {
    var h, value := Header(t), v + [NUL] + more;
    var s := h + [NUL] + value;
    HeaderIsText(t);
    StrLenOf(h, value);
    assert s[..|h|] == h && s[|h| + 1..] == value;
    ScanPrintedHeader(t);
    StrLenOf(v, more);
    assert value[..|v|] == v;
  }

  lemma ParseWrittenBody(t: Tag)
    requires WellFormed(t)
    ensures ParseBody(Body(t)) == Parsed(Restored(t))
  {
    var rest := Header(t) + [NUL] + Payload(t);
    StrLenOf(t.name, rest);
    assert Body(t)[..|t.name|] == t.name && Body(t)[|t.name| + 1..] == rest;
    ParseWrittenRest(t);
  }

  /** One turn of the record loop. */
  lemma ReadTurn(parse: Bytes -> Parsed, s: Bytes, off: nat, rec: Bytes, t: ReadTag, done: seq<ReadTag>)
    requires off + 4 + |rec| <= |s| && FromNetworkLong(s[off..off + 4]) == |rec|
    requires s[off + 4..off + 4 + |rec|] == rec && parse(rec) == Parsed(t)
    ensures ReadFrom(parse, s, off, done) == ReadFrom(parse, s, off + 4 + |rec|, done + [t])
  {
  }

  /** The pieces of a record at an offset. */
  lemma RecordAt(s: Bytes, off: nat, len: Bytes, body: Bytes, rest: Bytes)
    requires off <= |s| && s[off..] == len + body + rest && |len| == 4
    ensures off + 4 + |body| <= |s| && s[off..off + 4] == len
    ensures s[off + 4..off + 4 + |body|] == body && s[off + 4 + |body|..] == rest
  {
    var left := s[off..];
    assert left[..4] == len && left[4..4 + |body|] == body && left[4 + |body|..] == rest;
  }

  /** Reading on from an offset, in front of what is left, ends with r. */
  predicate ReadsTo(parse: Bytes -> Parsed, s: Bytes, off: nat, left: Bytes, done: seq<ReadTag>, r: Collected) {
    off <= |s| && s[off..] == left && ReadFrom(parse, s, off, done) == r
  }

  lemma ReadOneBody(parse: Bytes -> Parsed, s: Bytes, off: nat, body: Bytes, rest: Bytes,
                    t: ReadTag, done: seq<ReadTag>, r: Collected)
    requires |body| < TWO_32 && parse(body) == Parsed(t)
    requires ReadsTo(parse, s, off, NetworkLong(|body|) + body + rest, done, r)
    ensures ReadsTo(parse, s, off + 4 + |body|, rest, done + [t], r)
  {
    NetworkLongRoundTrip(|body|);
    RecordAt(s, off, NetworkLong(|body|), body, rest);
    ReadTurn(parse, s, off, body, t, done);
  }

  function Framed(bodies: seq<Bytes>): Bytes {
    if bodies == [] then [] else Frame(bodies[0]) + Framed(bodies[1..])
  }

  lemma FrameOf(body: Bytes)
    requires |body| < TWO_32
    ensures Frame(body) == NetworkLong(|body|) + body
  {
    assert |body| % TWO_32 == |body|;
  }

  predicate AllParse(parse: Bytes -> Parsed, bodies: seq<Bytes>, tags: seq<ReadTag>) {
    |bodies| == |tags|
    && forall i :: 0 <= i < |bodies| ==> |bodies[i]| < TWO_32 && parse(bodies[i]) == Parsed(tags[i])
  }

  lemma AllParseTail(parse: Bytes -> Parsed, bodies: seq<Bytes>, tags: seq<ReadTag>)
    requires AllParse(parse, bodies, tags) && bodies != []
    ensures AllParse(parse, bodies[1..], tags[1..]) && |bodies[0]| < TWO_32 && parse(bodies[0]) == Parsed(tags[0])
  {
  }

  lemma OneMoreTag(done: seq<ReadTag>, tags: seq<ReadTag>)
    requires tags != []
    ensures done + [tags[0]] + tags[1..] == done + tags
  {
  }

  /** The record loop on any framed bodies its parser accepts, up to what follows them. */
  lemma {:induction false} ReadAllBodies(parse: Bytes -> Parsed, s: Bytes, off: nat, bodies: seq<Bytes>, rest: Bytes,
                                         tags: seq<ReadTag>, done: seq<ReadTag>, r: Collected)
    requires ReadsTo(parse, s, off, Framed(bodies) + rest, done, r) && AllParse(parse, bodies, tags)
    ensures |rest| <= |s| && ReadsTo(parse, s, |s| - |rest|, rest, done + tags, r)
    decreases bodies
  {
    if bodies == [] {
      assert done + tags == done && [] + rest == rest;
    } else {
      var body, more := bodies[0], Framed(bodies[1..]) + rest;
      AllParseTail(parse, bodies, tags);
      FrameOf(body);
      Associate(Frame(body), Framed(bodies[1..]), rest);
      ReadOneBody(parse, s, off, body, more, tags[0], done, r);
      OneMoreTag(done, tags);
      ReadAllBodies(parse, s, off + 4 + |body|, bodies[1..], rest, tags[1..], done + [tags[0]], r);
    }
  }

  function Bodies(ts: seq<Tag>): seq<Bytes> {
    seq(|ts|, i requires 0 <= i < |ts| => Body(ts[i]))
  }

  lemma {:induction false} RecordsAreFramed(ts: seq<Tag>)
    ensures Records(ts) == Framed(Bodies(ts))
  {
    if ts != [] {
      RecordsAreFramed(ts[1..]);
      assert Bodies(ts)[1..] == Bodies(ts[1..]);
    }
  }

  lemma {:induction false} RestoredAllAt(ts: seq<Tag>)
    ensures |RestoredAll(ts)| == |ts| && forall i :: 0 <= i < |ts| ==> RestoredAll(ts)[i] == Restored(ts[i])
  {
    if ts != [] { RestoredAllAt(ts[1..]); }
  }

  lemma BodiesParse(ts: seq<Tag>)
    requires forall i :: 0 <= i < |ts| ==> WellFormed(ts[i])
    ensures AllParse(ParseBody, Bodies(ts), RestoredAll(ts))
  {
    RestoredAllAt(ts);
    forall i | 0 <= i < |ts|
      ensures |Bodies(ts)[i]| < TWO_32 && ParseBody(Bodies(ts)[i]) == Parsed(RestoredAll(ts)[i])
    {
      ParseWrittenBody(ts[i]);
    }
  }

  lemma StartReading(s: Bytes, left: Bytes)
    requires s == MAGIC_BYTES + left
    ensures ReadsTo(ParseBody, s, 4, left, [], ReadFile(s))
  {
    assert s[..4] == MAGIC_BYTES && s[4..] == left;
  }

  /** Reading a file that starts with an image comes to what follows it, with every tag. */
  lemma ReadImageAnd(ts: seq<Tag>, rest: Bytes)
    requires forall i :: 0 <= i < |ts| ==> WellFormed(ts[i])
    ensures var s := Image(ts) + rest;
      ReadsTo(ParseBody, s, |s| - |rest|, rest, RestoredAll(ts), ReadFile(s))
  {
    var s, tags := Image(ts) + rest, RestoredAll(ts);
    RecordsAreFramed(ts);
    BodiesParse(ts);
    Associate(MAGIC_BYTES, Records(ts), rest);
    StartReading(s, Records(ts) + rest);
    ReadAllBodies(ParseBody, s, 4, Bodies(ts), rest, tags, [], ReadFile(s));
    assert [] + tags == tags;
  }

  /** Reading a tag file ends exactly at its end, with every tag in append order. */
  lemma ReadImage(ts: seq<Tag>)
    requires forall i :: 0 <= i < |ts| ==> WellFormed(ts[i])
    ensures ReadFile(Image(ts)) == Collected(RestoredAll(ts), Good)
  {
    ReadImageAnd(ts, []);
    assert Image(ts) + [] == Image(ts);
  }

  lemma ReadsCut(parse: Bytes -> Parsed, s: Bytes, off: nat, rest: Bytes, done: seq<ReadTag>, r: Collected)
    requires ReadsTo(parse, s, off, rest, done, r) && rest != []
    requires |rest| >= 4 ==> FromNetworkLong(rest[..4]) > |rest| - 4
    ensures r == Collected(done, if |rest| < 4 then Error(5) else Hang)
  {
    if |rest| >= 4 { assert s[off..off + 4] == s[off..][..4]; }
  }

  /** A file cut within a record keeps the tags in front of it, and ends in an error or,
      behind a whole length, in a read that never gets its bytes. */
  lemma ReadCutFile(ts: seq<Tag>, rest: Bytes)
    requires (forall i :: 0 <= i < |ts| ==> WellFormed(ts[i])) && rest != []
    requires |rest| >= 4 ==> FromNetworkLong(rest[..4]) > |rest| - 4
    ensures ReadFile(Image(ts) + rest) == Collected(RestoredAll(ts), if |rest| < 4 then Error(5) else Hang)
  {
    var s := Image(ts) + rest;
    ReadImageAnd(ts, rest);
    ReadsCut(ParseBody, s, |s| - |rest|, rest, RestoredAll(ts), ReadFile(s));
  }

  lemma MagicIs()
    ensures MAGIC_BYTES == [0x74, 0xc0, 0x16, 0xf2]
  {
  }

  lemma WithoutMagic(s: Bytes)
    requires |s| < 4 || s[..4] != MAGIC_BYTES
    ensures ReadFile(s) == Collected([], Error(if |s| < 4 then 5 else 22))
  {
  }

  /** A file that is no tag file is refused. */
  lemma ReadForeignFile(s: Bytes)
    requires |s| < 4 || s[..4] != [0x74, 0xc0, 0x16, 0xf2]
    ensures ReadFile(s) == Collected([], Error(if |s| < 4 then 5 else 22))
  {
    MagicIs();
    WithoutMagic(s);
  }

  // ----- tag_attr --------------------------------------------------------------------------

  /** The copies tag_attr returns; a binary value is copied by its size, which is
      0. The empty answer is ENOENT. */
  function Answer(tags: seq<ReadTag>, name: Bytes): seq<ReadTag> {
    if tags == [] then []
    else if tags[0].name == name then
      [if tags[0].binary then tags[0].(value := []) else tags[0]] + Answer(tags[1..], name)
    else Answer(tags[1..], name)
  }

  lemma {:induction false} AnswerConcat(a: seq<ReadTag>, b: seq<ReadTag>, name: Bytes)
    ensures Answer(a + b, name) == Answer(a, name) + Answer(b, name)
  {
    if a == [] {
      assert a + b == b;
    } else {
      assert (a + b)[1..] == a[1..] + b;
      AnswerConcat(a[1..], b, name);
    }
  }

  lemma {:induction false} RestoredConcat(a: seq<Tag>, b: seq<Tag>)
    ensures RestoredAll(a + b) == RestoredAll(a) + RestoredAll(b)
  {
    if a == [] {
      assert a + b == b;
    } else {
      assert (a + b)[1..] == a[1..] + b;
      RestoredConcat(a[1..], b);
    }
  }

  /** An append extends the answer for its own name by one, for string tags with
      exactly the appended value, and leaves every other answer as it was. */
  lemma AppendExtendsOneAnswer(ts: seq<Tag>, t: Tag, name: Bytes)
    requires WellFormed(t) && forall i :: 0 <= i < |ts| ==> WellFormed(ts[i])
    ensures var before, after := Answer(ReadFile(Image(ts)).tags, name), Answer(ReadFile(Image(ts + [t])).tags, name);
      && (name != t.name ==> after == before)
      && (name == t.name ==> after == before + [if t.binary then Restored(t).(value := []) else Restored(t)])
  {
    ReadImage(ts);
    ReadImage(ts + [t]);
    RestoredConcat(ts, [t]);
    assert RestoredAll([t]) == [Restored(t)];
    AnswerConcat(RestoredAll(ts), [Restored(t)], name);
    assert Answer([Restored(t)], name)
        == if name == t.name then [if t.binary then Restored(t).(value := []) else Restored(t)] else [];
  }

  // ----- appending through a handle ---------------------------------------------------------------

  /** tag_append on the file's bytes; None is an error that writes nothing. */
  function AppendOne(s: Bytes, t: Tag): Option<Bytes> {
    if |s| == 0 then Some(MAGIC_BYTES + Record(t))
    else if |s| < 4 || s[..4] != MAGIC_BYTES then None
    else Some(s + Record(t))
  }

  /** The tags of one append_tags call, up to the first failure. */
  function AppendAll(s: Bytes, ts: seq<Tag>): Bytes
    decreases ts
  {
    if ts == [] || AppendOne(s, ts[0]).None? then s else AppendAll(AppendOne(s, ts[0]).value, ts[1..])
  }

  method TagAppend(h: FileHandle, t: Tag) returns (code: int)
    requires h.Valid() && h.filemode % 4 != O_RDONLY
    modifies h, h.filedata
    ensures h.Valid() && (h.filedata == old(h.filedata) || fresh(h.filedata))
    ensures var r := AppendOne(old(h.View()), t);
      && (code == 0 <==> r.Some?)
      && h.View() == (if r.Some? then r.value else old(h.View()))
      && h.modified == (old(h.modified) || r.Some?)
  {
    var magic := h.Pread(4, 0);
    if |magic| == 0 {
      h.Pwrite(MAGIC_BYTES, 0);
      assert h.View() == MAGIC_BYTES;
    } else if |magic| != 4 {
      return EIO;
    } else if magic != MAGIC_BYTES {
      return EINVAL;
    }
    h.Append(Record(t));
    code := 0;
  }

  /** A tag file is empty or starts with the magic number. */
  predicate Started(s: Bytes) {
    s == [] || (|s| >= 4 && s[..4] == MAGIC_BYTES)
  }

  lemma AppendOneStarts(s: Bytes, t: Tag)
    ensures AppendOne(s, t).Some? <==> Started(s)
    ensures AppendOne(s, t).Some? ==> Started(AppendOne(s, t).value)
  {
  }

  lemma AppendTurn(s: Bytes, ts: seq<Tag>, i: nat)
    requires i < |ts|
    ensures AppendAll(s, ts[i..]) == if Started(s) then AppendAll(AppendOne(s, ts[i]).value, ts[i + 1..]) else s
    ensures AppendOne(s, ts[i]).Some? <==> Started(s)
    ensures Started(s) ==> Started(AppendOne(s, ts[i]).value)
  {
    AppendOneStarts(s, ts[i]);
    assert ts[i..][0] == ts[i] && ts[i..][1..] == ts[i + 1..];
  }

  /** The tags of one call, up to the first failure. */
  method AppendEach(h: FileHandle, ts: seq<Tag>) returns (code: int)
    requires h.Valid() && h.filemode % 4 != O_RDONLY
    modifies h, h.filedata
    ensures h.Valid() && (h.filedata == old(h.filedata) || fresh(h.filedata))
    ensures h.View() == AppendAll(old(h.View()), ts) && (!h.modified ==> h.View() == old(h.View()))
    ensures code == 0 <==> ts == [] || Started(old(h.View()))
  {
    ghost var last := AppendAll(h.View(), ts);
    assert ts[0..] == ts;
    for i := 0 to |ts|
      invariant h.Valid() && (h.filedata == old(h.filedata) || fresh(h.filedata))
      invariant last == AppendAll(h.View(), ts[i..]) && (!h.modified ==> h.View() == old(h.View()))
      invariant (Started(h.View()) <==> Started(old(h.View()))) && (i > 0 ==> Started(old(h.View())))
    {
      AppendTurn(h.View(), ts, i);
      var err := TagAppend(h, ts[i]);
      if err != 0 { return EIO; }
    }
    assert ts[|ts|..] == [];
    code := 0;
  }

  /** glite_jppsbe_append_tags: open or create, append until one fails, close. It
      fails only on a file that is no tag file. */
  method AppendTags(disk: Disk, path: Bytes, ts: seq<Tag>) returns (code: int)
    modifies disk
    ensures var file := if path in old(disk.files) then old(disk.files)[path] else [];
      disk.files == old(disk.files)[path := AppendAll(file, ts)] && (code == 0 <==> ts == [] || Started(file))
  {
    var h := OpenFile(disk, path, O_RDWR + O_CREAT);
    if h == null { assert false; }
    code := AppendEach(h, ts);
    h.Close(disk);
  }

  /** The loop of tagsread: record by record until a read returns nothing. */
  method RecordLoop(parse: Bytes -> Parsed, h: FileHandle) returns (r: Collected)
    requires h.Valid() && h.eof >= 4
    modifies h`offset
    ensures r == ReadFrom(parse, h.View(), 4, []) && h.View() == old(h.View()) && h.Valid()
  {
    ghost var s := h.View();
    ghost var goal := ReadFrom(parse, s, 4, []);
    var off := 4;
    var tags: seq<ReadTag> := [];
    while true
      invariant h.Valid() && h.View() == s && 4 <= off <= |s|
      invariant goal == ReadFrom(parse, s, off, tags)
      decreases |s| - off
    {
      var len := h.Pread(4, off);
      if |len| == 0 { break; }
      if |len| != 4 { return Collected(tags, Error(EIO)); }
      var rlen := FromNetworkLong(len);
      var rec := h.Pread(rlen, off + 4);
      if |rec| < rlen { return Collected(tags, Hang); }
      match parse(rec) {
        case Bad(status) => return Collected([], status);
        case Parsed(t) => tags := tags + [t];
      }
      off := off + 4 + rlen;
    }
    r := Collected(tags, Good);
  }

  /** tagsread: the magic number, then the records. */
  method TagsRead(h: FileHandle) returns (r: Collected)
    requires h.Valid()
    modifies h`offset
    ensures r == ReadFile(h.View()) && h.View() == old(h.View()) && h.Valid()
  {
    var magic := h.Pread(4, 0);
    if |magic| != 4 { return Collected([], Error(EIO)); }
    if magic != MAGIC_BYTES { return Collected([], Error(EINVAL)); }
    r := RecordLoop(ParseBody, h);
  }

  // ----- whole histories ------------------------------------------------------------------------------

  function Flatten(sessions: seq<seq<Tag>>): seq<Tag> {
    if sessions == [] then [] else sessions[0] + Flatten(sessions[1..])
  }

  /** The tag file after a series of append_tags calls. */
  function AfterSessions(file: Option<Bytes>, sessions: seq<seq<Tag>>): Option<Bytes>
    decreases sessions
  {
    if sessions == [] then file
    else AfterSessions(Some(AppendAll(if file.Some? then file.value else [], sessions[0])), sessions[1..])
  }

  /** s with some records behind it; the magic number comes with the first one. */
  function Extended(s: Bytes, records: Bytes): Bytes {
    if records == [] then s else (if s == [] then MAGIC_BYTES else s) + records
  }

  lemma ExtendedTwice(s: Bytes, a: Bytes, b: Bytes)
    requires Started(s)
    ensures Started(Extended(s, a)) && Extended(Extended(s, a), b) == Extended(s, a + b)
  {
    if b == [] {
      assert a + b == a;
    } else if a == [] {
      assert a + b == b;
    } else {
      var base := if s == [] then MAGIC_BYTES else s;
      assert base + a + b == base + (a + b);
    }
  }

  lemma AppendOneExtends(s: Bytes, t: Tag)
    requires Started(s)
    ensures AppendOne(s, t) == Some(Extended(s, Record(t)))
  {
  }

  lemma {:induction false} AppendAllExtends(s: Bytes, ts: seq<Tag>)
    requires Started(s)
    ensures AppendAll(s, ts) == Extended(s, Records(ts))
    decreases ts
  {
    if ts != [] {
      AppendOneExtends(s, ts[0]);
      ExtendedTwice(s, Record(ts[0]), Records(ts[1..]));
      AppendAllExtends(Extended(s, Record(ts[0])), ts[1..]);
    }
  }

  lemma {:induction false} RecordsConcat(a: seq<Tag>, b: seq<Tag>)
    ensures Records(a + b) == Records(a) + Records(b)
  {
    if a == [] {
      assert a + b == b;
    } else {
      assert (a + b)[1..] == a[1..] + b;
      RecordsConcat(a[1..], b);
      assert Record(a[0]) + (Records(a[1..]) + Records(b)) == Record(a[0]) + Records(a[1..]) + Records(b);
    }
  }

  /** Sessions only ever extend the file, by the records of their tags. */
  lemma {:induction false} SessionsExtend(s: Bytes, sessions: seq<seq<Tag>>)
    requires Started(s)
    ensures AfterSessions(Some(s), sessions) == Some(Extended(s, Records(Flatten(sessions))))
    decreases sessions
  {
    if sessions != [] {
      var first, rest := sessions[0], Flatten(sessions[1..]);
      AppendAllExtends(s, first);
      ExtendedTwice(s, Records(first), Records(rest));
      SessionsExtend(AppendAll(s, first), sessions[1..]);
      RecordsConcat(first, rest);
    }
  }

  lemma HistoryFile(sessions: seq<seq<Tag>>)
    ensures var ts, file := Flatten(sessions), AfterSessions(None, sessions);
      if ts == [] then file.None? || file == Some([]) else file == Some(Image(ts))
  {
    if sessions != [] {
      SessionsExtend([], sessions);
    }
  }

  function Named(ts: seq<Tag>, name: Bytes): seq<Tag> {
    if ts == [] then []
    else (if ts[0].name == name then [ts[0]] else []) + Named(ts[1..], name)
  }

  lemma {:induction false} AnswerIsNamed(ts: seq<Tag>, name: Bytes)
    requires forall i :: 0 <= i < |ts| ==> !ts[i].binary
    ensures Answer(RestoredAll(ts), name) == RestoredAll(Named(ts, name))
  {
    if ts != [] {
      AnswerIsNamed(ts[1..], name);
      assert RestoredAll(ts)[1..] == RestoredAll(ts[1..]);
      if ts[0].name == name {
        assert Named(ts, name)[1..] == Named(ts[1..], name);
      } else {
        assert Named(ts, name) == Named(ts[1..], name);
      }
    }
  }

  /** Tags are write-once history: after any series of sessions on a fresh job,
      reading the file ends at its end with all tags in append order, and a name
      is answered with exactly the tags appended under it. */
  lemma TagsAreHistory(sessions: seq<seq<Tag>>, name: Bytes)
    requires forall i :: 0 <= i < |Flatten(sessions)| ==> WellFormed(Flatten(sessions)[i])
    ensures var ts, file := Flatten(sessions), AfterSessions(None, sessions);
      var r := if file.Some? then ReadFile(file.value) else Collected([], Error(ENOENT));
      && r.tags == RestoredAll(ts)
      && (ts != [] ==> r.status == Good)
      && ((forall i :: 0 <= i < |ts| ==> !ts[i].binary) ==> Answer(r.tags, name) == RestoredAll(Named(ts, name)))
  {
    var ts := Flatten(sessions);
    HistoryFile(sessions);
    ReadImage(ts);
    if forall i :: 0 <= i < |ts| ==> !ts[i].binary {
      AnswerIsNamed(ts, name);
    }
  }
}
