/** Byte strings as the C code sees them: NUL-terminated text, the strcmp and
    memcmp orders, printed decimals and 32-bit integers in network order. */
module Text {

  type byte = b: int | 0 <= b < 256

  type Bytes = seq<byte>

  datatype Option<+T> = None | Some(value: T)

  const NUL: byte := 0
  const COLON: byte := 58
  const BACKSLASH: byte := 92
  const SPACE: byte := 32
  const MINUS: byte := 45
  const SLASH: byte := 47
  const DOT: byte := 46

  // How stored attributes and tags mark binary and string values.
  const KIND_BINARY: byte := 66 // 'B'
  const KIND_STRING: byte := 83 // 'S'

  // Error codes.
  const EPERM := 1
  const ENOENT := 2
  const EIO := 5
  const EEXIST := 17
  const EINVAL := 22

  /** A string literal as bytes. */
  function Ascii(s: string): Bytes {
    seq(|s|, i requires 0 <= i < |s| => s[i] as int % 256)
  }

  /** A value that fits a C string. */
  predicate NulFree(s: Bytes) {
    NUL !in s
  }

  // ----- order ---------------------------------------------------------------

  /** The lexicographic order on byte strings; a proper prefix comes first. */
  function Lex(a: Bytes, b: Bytes): (r: int)
    ensures r in {-1, 0, 1}
    ensures r == 0 <==> a == b
  {
    if a == [] && b == [] then 0
    else if a == [] then -1
    else if b == [] then 1
    else if a[0] < b[0] then -1
    else if a[0] > b[0] then 1
    else
      assert a == [a[0]] + a[1..] && b == [b[0]] + b[1..];
      Lex(a[1..], b[1..])
  }

  /** strcmp: walk both strings until the bytes differ or both end; the end of a
      string reads as NUL. */
  function StrCmp(a: Bytes, b: Bytes): int
    decreases |a| + |b|
  {
    var x: byte := if a == [] then NUL else a[0];
    var y: byte := if b == [] then NUL else b[0];
    if x != y then (if x < y then -1 else 1)
    else if x == NUL then 0
    else StrCmp(a[1..], b[1..])
  }

  /** memcmp over the first n bytes. */
  function MemCmp(a: Bytes, b: Bytes, n: nat): int
    requires n <= |a| && n <= |b|
    decreases n
  {
    if n == 0 then 0
    else if a[0] != b[0] then (if a[0] < b[0] then -1 else 1)
    else MemCmp(a[1..], b[1..], n - 1)
  }

  lemma {:induction false} StrCmpIsLex(a: Bytes, b: Bytes)
    requires NulFree(a) && NulFree(b)
    ensures StrCmp(a, b) == Lex(a, b)
    decreases |a| + |b|
  {
    if a != [] && b != [] && a[0] == b[0] {
      assert NulFree(a[1..]) && NulFree(b[1..]);
      StrCmpIsLex(a[1..], b[1..]);
    }
  }

  lemma {:induction false} LexAntisymmetric(a: Bytes, b: Bytes)
    ensures Lex(a, b) == -Lex(b, a)
  {
    if a != [] && b != [] && a[0] == b[0] {
      LexAntisymmetric(a[1..], b[1..]);
    }
  }

  lemma {:induction false} LexTransitive(a: Bytes, b: Bytes, c: Bytes)
    requires Lex(a, b) <= 0 && Lex(b, c) <= 0
    ensures Lex(a, c) <= 0
    ensures Lex(a, b) < 0 || Lex(b, c) < 0 ==> Lex(a, c) < 0
  {
    if a != [] && b != [] && c != [] && a[0] == b[0] == c[0] {
      LexTransitive(a[1..], b[1..], c[1..]);
    }
  }

  // ----- decimals ------------------------------------------------------------

  predicate IsDigit(b: byte) {
    48 <= b <= 57
  }

  function DigitsOf(n: nat): (s: Bytes)
    ensures |s| >= 1 && forall i :: 0 <= i < |s| ==> IsDigit(s[i])
  {
    if n < 10 then [48 + n] else DigitsOf(n / 10) + [48 + n % 10]
  }

  /** printf of %d or %ld. */
  function Decimal(n: int): Bytes {
    if n < 0 then [MINUS] + DigitsOf(-n) else DigitsOf(n)
  }

  /** The value of a digit string, most significant digit first. */
  function DigitsValue(s: Bytes): nat
    requires forall i :: 0 <= i < |s| ==> IsDigit(s[i])
  {
    if s == [] then 0
    else
      var digit: int := s[|s| - 1];
      assert IsDigit(s[|s| - 1]);
      DigitsValue(s[..|s| - 1]) * 10 + (digit - 48)
  }

  /** The length of the leading run of digits. */
  function DigitRun(s: Bytes): (n: nat)
    ensures n <= |s| && forall i :: 0 <= i < n ==> IsDigit(s[i])
  {
    if s == [] || !IsDigit(s[0]) then 0 else 1 + DigitRun(s[1..])
  }

  /** atol, and the %ld conversion of sscanf: leading blanks, a sign, digits.
      Returns the value and the number of bytes consumed. */
  function ParseLong(s: Bytes): (r: (int, nat))
    ensures r.1 <= |s|
  {
    if s != [] && s[0] == SPACE then
      var (v, n) := ParseLong(s[1..]);
      (v, n + 1)
    else if s != [] && s[0] == MINUS then
      (-LeadingNumber(s[1..]), DigitRun(s[1..]) + 1)
    else (LeadingNumber(s), DigitRun(s))
  }

  function LeadingNumber(s: Bytes): int {
    DigitsValue(s[..DigitRun(s)])
  }

  lemma {:induction false} DigitsRoundTrip(n: nat)
    ensures DigitsValue(DigitsOf(n)) == n
  {
    if n >= 10 {
      DigitsRoundTrip(n / 10);
      var s := DigitsOf(n);
      assert s[..|s| - 1] == DigitsOf(n / 10);
    } else {
      assert DigitsOf(n)[..0] == [];
    }
  }

  lemma {:induction false} DigitRunOfDigits(d: Bytes, rest: Bytes)
    requires forall i :: 0 <= i < |d| ==> IsDigit(d[i])
    requires rest == [] || !IsDigit(rest[0])
    ensures DigitRun(d + rest) == |d|
  {
    if d == [] {
      assert d + rest == rest;
    } else {
      assert (d + rest)[1..] == d[1..] + rest;
      DigitRunOfDigits(d[1..], rest);
    }
  }

  lemma LeadingDigits(d: Bytes, rest: Bytes)
    requires (forall i :: 0 <= i < |d| ==> IsDigit(d[i])) && (rest == [] || !IsDigit(rest[0]))
    ensures DigitRun(d + rest) == |d| && LeadingNumber(d + rest) == DigitsValue(d)
  {
    DigitRunOfDigits(d, rest);
    assert (d + rest)[..|d|] == d;
  }

  lemma Associate(a: Bytes, b: Bytes, c: Bytes)
    ensures a + b + c == a + (b + c)
  {
  }

  lemma MinusInFront(t: Bytes, n: nat, v: int)
    requires DigitRun(t) == n && LeadingNumber(t) == v
    ensures ParseLong([MINUS] + t) == (-v, n + 1)
  {
    assert ([MINUS] + t)[1..] == t;
  }

  /** A printed number followed by anything but a digit reads back as itself. */
  lemma ParsePrintedLong(n: int, rest: Bytes)
    requires rest == [] || !IsDigit(rest[0])
    ensures ParseLong(Decimal(n) + rest) == (n, |Decimal(n)|)
  {
    var m := if n < 0 then -n else n;
    DigitsRoundTrip(m);
    LeadingDigits(DigitsOf(m), rest);
    if n < 0 {
      Associate([MINUS], DigitsOf(m), rest);
      MinusInFront(DigitsOf(m) + rest, |DigitsOf(m)|, m);
    }
  }

  function Pow10(k: nat): nat {
    if k == 0 then 1 else 10 * Pow10(k - 1)
  }

  lemma {:induction false} DigitsLength(n: nat, k: nat)
    requires k >= 1 && n < Pow10(k)
    ensures |DigitsOf(n)| <= k
    decreases k
  {
    if n >= 10 {
      DigitsLength(n / 10, k - 1);
    }
  }

  /** A 32-bit number prints in at most 11 bytes. */
  lemma Int32Length(n: int)
    requires -0x8000_0000 <= n < 0x8000_0000
    ensures 1 <= |Decimal(n)| <= 11
  {
    assert Pow10(10) == 10_000_000_000 by {
      assert Pow10(5) == 100_000;
      assert Pow10(10) == 100_000 * Pow10(5);
    }
    DigitsLength(if n < 0 then -n else n, 10);
  }

  lemma DecimalHasNo(n: int, b: byte)
    requires !IsDigit(b) && b != MINUS
    ensures b !in Decimal(n)
  {
  }

  // ----- C strings inside a buffer --------------------------------------------

  /** strlen of the text starting at the front of a buffer; |s| when no NUL is
      found inside it. */
  function StrLen(s: Bytes): (n: nat)
    ensures n <= |s| && NulFree(s[..n])
    ensures n < |s| ==> s[n] == NUL
  {
    if s == [] || s[0] == NUL then 0
    else
      var n := 1 + StrLen(s[1..]);
      assert s[..n] == [s[0]] + s[1..][..n - 1];
      n
  }

  lemma {:induction false} StrLenOf(s: Bytes, rest: Bytes)
    requires NulFree(s)
    ensures StrLen(s + [NUL] + rest) == |s|
  {
    if s == [] {
      assert (s + [NUL] + rest)[0] == NUL;
    } else {
      assert (s + [NUL] + rest)[1..] == s[1..] + [NUL] + rest;
      assert s[0] in s;
      assert NulFree(s[1..]);
      StrLenOf(s[1..], rest);
    }
  }

  /** strchr: the first position of b, or |s|. */
  function IndexOf(s: Bytes, b: byte): (n: nat)
    ensures n <= |s| && b !in s[..n]
    ensures n < |s| ==> s[n] == b
  {
    if s == [] || s[0] == b then 0
    else
      var n := 1 + IndexOf(s[1..], b);
      assert s[..n] == [s[0]] + s[1..][..n - 1];
      n
  }

  lemma {:induction false} IndexOfFirst(s: Bytes, b: byte, rest: Bytes)
    requires b !in s
    ensures IndexOf(s + [b] + rest, b) == |s|
  {
    if s == [] {
      assert (s + [b] + rest)[0] == b;
    } else {
      assert (s + [b] + rest)[1..] == s[1..] + [b] + rest;
      assert s[0] in s;
      IndexOfFirst(s[1..], b, rest);
    }
  }

  lemma {:induction false} IndexOfWithin(s: Bytes, b: byte, n: nat)
    requires n <= |s|
    ensures b in s[..n] <==> IndexOf(s, b) < n
  {
    if n > 0 && s[0] != b {
      IndexOfWithin(s[1..], b, n - 1);
      assert s[..n] == [s[0]] + s[1..][..n - 1];
    }
  }

  // ----- 32-bit integers ---------------------------------------------------------

  const TWO_32: int := 0x1_0000_0000

  /** htonl of a uint32_t, as the four bytes that land in memory. */
  function NetworkLong(n: nat): (s: Bytes)
    requires n < TWO_32
    ensures |s| == 4
  {
    [n / 0x100_0000, n / 0x1_0000 % 256, n / 256 % 256, n % 256]
  }

  /** ntohl of four bytes. */
  function FromNetworkLong(s: Bytes): (n: nat)
    requires |s| == 4
    ensures n < TWO_32
  {
    var a: int, b: int, c: int, d: int := s[0], s[1], s[2], s[3];
    ((a * 256 + b) * 256 + c) * 256 + d
  }

  lemma NetworkLongRoundTrip(n: nat)
    requires n < TWO_32
    ensures FromNetworkLong(NetworkLong(n)) == n
  {
    assert n / 256 / 256 == n / 0x1_0000;
    assert n / 0x1_0000 / 256 == n / 0x100_0000;
  }

  // ----- job ids --------------------------------------------------------------

  /** The unique part of a job id, behind its last slash, or None without one. */
  function Unique(job: Bytes): (u: Option<Bytes>)
    ensures u.Some? <==> SLASH in job
  {
    if job == [] then None
    else if job[|job| - 1] == SLASH then Some([])
    else
      match Unique(job[..|job| - 1])
      case None => None
      case Some(u) => Some(u + [job[|job| - 1]])
  }

  lemma {:induction false} UniqueHasNoSlash(job: Bytes)
    requires Unique(job).Some?
    ensures SLASH !in Unique(job).value
  {
    if job != [] && job[|job| - 1] != SLASH {
      UniqueHasNoSlash(job[..|job| - 1]);
    }
  }

  /** The unique part is what is behind the last slash. */
  lemma {:induction false} UniqueOf(pre: Bytes, u: Bytes)
    requires SLASH !in u
    ensures Unique(pre + [SLASH] + u) == Some(u)
  {
    var job := pre + [SLASH] + u;
    if u != [] {
      var last := |u| - 1;
      assert job[..|job| - 1] == pre + [SLASH] + u[..last];
      UniqueOf(pre, u[..last]);
      assert u == u[..last] + [u[last]];
    }
  }
}
