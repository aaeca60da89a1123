/** The base64 encoding of section 4 of RFC 4648, which stores binary attribute
    values as text. */
module Base64 {
  import opened Text

  const PAD: byte := 61

  function SextetChar(v: nat): (c: byte)
    requires v < 64
    ensures c != PAD && c != NUL
  {
    if v < 26 then 65 + v
    else if v < 52 then 97 + (v - 26)
    else if v < 62 then 48 + (v - 52)
    else if v == 62 then 43
    else 47
  }

  function CharSextet(c: byte): (r: Option<nat>)
    ensures r.Some? ==> r.value < 64
  {
    if 65 <= c <= 90 then Some(c - 65)
    else if 97 <= c <= 122 then Some(c - 97 + 26)
    else if 48 <= c <= 57 then Some(c - 48 + 52)
    else if c == 43 then Some(62)
    else if c == 47 then Some(63)
    else None
  }

  /** Three bytes as four characters. */
  function EncodeThree(a: byte, b: byte, c: byte): (t: Bytes)
    ensures |t| == 4 && NulFree(t)
  {
    [SextetChar(a / 4), SextetChar(a % 4 * 16 + b / 16), SextetChar(b % 16 * 4 + c / 64), SextetChar(c % 64)]
  }

  /** The last group, of one to three bytes, padded. */
  function EncodeLast(s: Bytes): (t: Bytes)
    requires 1 <= |s| <= 3
    ensures |t| == 4 && NulFree(t)
  {
    if |s| == 3 then EncodeThree(s[0], s[1], s[2])
    else if |s| == 2 then EncodeThree(s[0], s[1], 0)[..3] + [PAD]
    else EncodeThree(s[0], 0, 0)[..2] + [PAD, PAD]
  }

  function Encode(s: Bytes): (t: Bytes)
    ensures |t| == 4 * ((|s| + 2) / 3)
    ensures NulFree(t)
  {
    if |s| == 0 then []
    else if |s| <= 3 then EncodeLast(s)
    else EncodeThree(s[0], s[1], s[2]) + Encode(s[3..])
  }

  /** Four characters as three bytes. */
  function DecodeFour(t: Bytes): (r: Option<Bytes>)
    requires |t| == 4
    ensures r.Some? ==> |r.value| == 3
  {
    var w, x, y, z := CharSextet(t[0]), CharSextet(t[1]), CharSextet(t[2]), CharSextet(t[3]);
    if w.None? || x.None? || y.None? || z.None? then None
    else Some([w.value * 4 + x.value / 16, x.value % 16 * 16 + y.value / 4, y.value % 4 * 64 + z.value])
  }

  /** The last group, whose padding tells how many bytes it stands for. */
  function DecodeLast(t: Bytes): Option<Bytes>
    requires |t| == 4
  {
    var pads := if t[3] != PAD then 0 else if t[2] != PAD then 1 else 2;
    match DecodeFour(t[..4 - pads] + [SextetChar(0), SextetChar(0)][..pads])
    case None => None
    case Some(s) => Some(s[..3 - pads])
  }

  /** The decoder: groups of four, padding in the last group only. */
  function Decode(t: Bytes): Option<Bytes> {
    if |t| == 0 then Some([])
    else if |t| < 4 then None
    else if |t| == 4 then DecodeLast(t)
    else
      match (DecodeFour(t[..4]), Decode(t[4..]))
      case (Some(s), Some(rest)) => Some(s + rest)
      case _ => None
  }

  lemma SextetRoundTrip(v: nat)
    requires v < 64
    ensures CharSextet(SextetChar(v)) == Some(v)
  {
  }

  lemma DecodeSextets(w: nat, x: nat, y: nat, z: nat)
    requires w < 64 && x < 64 && y < 64 && z < 64
    ensures DecodeFour([SextetChar(w), SextetChar(x), SextetChar(y), SextetChar(z)])
         == Some([w * 4 + x / 16, x % 16 * 16 + y / 4, y % 4 * 64 + z])
  {
    SextetRoundTrip(w);
    SextetRoundTrip(x);
    SextetRoundTrip(y);
    SextetRoundTrip(z);
  }

  /** The sextets of three bytes hold all their bits. */
  lemma SplitBits(a: nat, b: nat, c: nat)
    requires a < 256 && b < 256 && c < 256
    ensures var w, x, y, z := a / 4, a % 4 * 16 + b / 16, b % 16 * 4 + c / 64, c % 64;
      && w < 64 && x < 64 && y < 64 && z < 64
      && w * 4 + x / 16 == a && x % 16 * 16 + y / 4 == b && y % 4 * 64 + z == c
  {
  }

  lemma ThreeRoundTrip(a: byte, b: byte, c: byte)
    ensures DecodeFour(EncodeThree(a, b, c)) == Some([a, b, c])
  {
    SplitBits(a, b, c);
    DecodeSextets(a / 4, a % 4 * 16 + b / 16, b % 16 * 4 + c / 64, c % 64);
  }

  lemma LastRoundTrip(s: Bytes)
    requires 1 <= |s| <= 3
    ensures DecodeLast(EncodeLast(s)) == Some(s)
  {
    var a, b, c := s[0], if |s| > 1 then s[1] else 0, if |s| > 2 then s[2] else 0;
    var t, full := EncodeLast(s), EncodeThree(a, b, c);
    ThreeRoundTrip(a, b, c);
    var pads := 3 - |s|;
    assert t[..4 - pads] + [SextetChar(0), SextetChar(0)][..pads] == full;
    assert s == [a, b, c][..|s|];
  }

  lemma DecodeCons(t: Bytes, head: Bytes, tail: Bytes, s: Bytes, three: Bytes, rest: Bytes)
    requires t == head + tail && |head| == 4 && tail != [] && s == three + rest
    requires DecodeFour(head) == Some(three) && Decode(tail) == Some(rest)
    ensures Decode(t) == Some(s)
  {
    assert t[..4] == head && t[4..] == tail;
  }

  lemma {:induction false} DecodeEncode(s: Bytes)
    ensures Decode(Encode(s)) == Some(s)
  {
    if 1 <= |s| <= 3 {
      LastRoundTrip(s);
    } else if |s| > 3 {
      DecodeEncode(s[3..]);
      ThreeRoundTrip(s[0], s[1], s[2]);
      assert s == [s[0], s[1], s[2]] + s[3..];
      DecodeCons(Encode(s), EncodeThree(s[0], s[1], s[2]), Encode(s[3..]), s, [s[0], s[1], s[2]], s[3..]);
    }
  }
}
