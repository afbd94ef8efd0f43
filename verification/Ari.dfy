/**
 ACME renewal information: the window the frontend suggests, computed in 64-bit
 nanoseconds and published in whole seconds, against the second at which the CA
 stops refusing a successor; and the identifier a certificate is looked up by.
 */
module Ari {
  import opened Strings
  import opened Issuance

  const RENEW_PCT: int := 33
  const CLOSE_PCT: int := 10
  const SECOND: int := 1_000_000_000
  const TWO_63: int := 0x8000_0000_0000_0000

  // ---------------------------------------------------------------- 64-bit arithmetic

  /** The value a 64-bit register keeps of `x`. */
  function Wrap(x: int): (r: int)
    ensures -0x8000_0000_0000_0000 <= r < 0x8000_0000_0000_0000 && (x - r) % 0x1_0000_0000_0000_0000 == 0
  {
    (x + TWO_63) % (2 * TWO_63) - TWO_63
  }

  lemma WrapsOnlyOutside(x: int)
    ensures Wrap(x) == x <==> -TWO_63 <= x < TWO_63
  {
  }

  /** Division that truncates toward zero. */
  function Quo(a: int, b: int): (q: int)
    requires b > 0
    ensures if a >= 0 then q * b <= a < q * b + b else q * b - b < a <= q * b
  {
    if a >= 0 then a / b else -((-a) / b)
  }

  /** `Time.Sub`, which saturates. */
  function Sub(a: int, b: int): int {
    if a - b >= TWO_63 then TWO_63 - 1 else if a - b < -TWO_63 then -TWO_63 else a - b
  }

  /** `-life * pct / 100` as the program evaluates it. */
  function Back(life: int, pct: int): int {
    Quo(Wrap(Wrap(-life) * pct), 100)
  }

  /** What RFC 3339 without a fraction shows of an instant. */
  function Published(instant: int): int {
    instant / SECOND
  }

  // ---------------------------------------------------------------- the window

  /** The instant at which `pct` percent of the lifetime is left. */
  function Edge(notBefore: int, notAfter: int, pct: int): int {
    notAfter * SECOND + Back(Sub(notAfter * SECOND, notBefore * SECOND), pct)
  }

  /** `urgent` is the window of a certificate to be replaced at once. */
  method RenewalWindow(notBefore: int, notAfter: int, urgent: Option<int>, now: int) returns (start: int, end: int)
    ensures urgent.Some? ==> start == now && end == now + urgent.value
    ensures urgent.None? ==> start == Edge(notBefore, notAfter, RENEW_PCT) && end == Edge(notBefore, notAfter, CLOSE_PCT)
    ensures urgent.None? && 0 < notAfter - notBefore <= 279_496_122 ==>
              && (notAfter * 1_000_000_000 - start) * 100 == (notAfter - notBefore) * 1_000_000_000 * 33
              && (notAfter * 1_000_000_000 - end) * 100 == (notAfter - notBefore) * 1_000_000_000 * 10
  {
    if urgent.Some? {
      start := now;
      end := now + urgent.value;
    } else {
      var life := Sub(notAfter * SECOND, notBefore * SECOND);
      start := notAfter * SECOND + Back(life, RENEW_PCT);
      end := notAfter * SECOND + Back(life, CLOSE_PCT);
      if 0 < notAfter - notBefore <= LONGEST {
        BackIsExact(notAfter - notBefore, RENEW_PCT);
        BackIsExact(notAfter - notBefore, CLOSE_PCT);
      }
    }
  }

  lemma BackIsExact(seconds: int, pct: int)
    requires 0 < seconds && (pct == RENEW_PCT || pct == CLOSE_PCT) && seconds * SECOND * RENEW_PCT <= TWO_63
    ensures Back(seconds * SECOND, pct) * 100 == -seconds * pct * SECOND
  {
    WrapsOnlyOutside(-(seconds * SECOND));
    if pct == RENEW_PCT {
      WrapsOnlyOutside(-(seconds * SECOND) * RENEW_PCT);
      TruncationIsExact(-(seconds * 330_000_000));
    } else {
      WrapsOnlyOutside(-(seconds * SECOND) * CLOSE_PCT);
      TruncationIsExact(-(seconds * 100_000_000));
    }
  }

  lemma TruncationIsExact(q: int)
    ensures Quo(q * 100, 100) == q
  {
  }

  /** The longest lifetime, in seconds, whose 33-fold fits 63 bits of nanoseconds: 3234 days and some hours. */
  const LONGEST: int := 279_496_122

  /** The multiplication overflows exactly beyond that lifetime. */
  lemma OverflowsExactlyWhen(seconds: int)
    requires 0 <= seconds * SECOND < TWO_63
    ensures Wrap(Wrap(-seconds * SECOND) * RENEW_PCT) == -seconds * SECOND * RENEW_PCT <==> seconds <= LONGEST
  {
    WrapsOnlyOutside(-seconds * SECOND);
    WrapsOnlyOutside(-seconds * SECOND * RENEW_PCT);
  }

  // ---------------------------------------------------------------- against the policy

  /** The first second at which a certificate no longer blocks a successor. */
  function FirstOpen(r: Row): int {
    r.notAfter - (r.notAfter - r.notBefore) * RENEW_WINDOW_PCT / 100
  }

  function PublishedStart(r: Row): int {
    Published(Edge(r.notBefore, r.notAfter, RENEW_PCT))
  }

  function PublishedEnd(r: Row): int {
    Published(Edge(r.notBefore, r.notAfter, CLOSE_PCT))
  }

  lemma PolicyOpensThere(r: Row, t: int)
    requires !r.revoked && r.notAfter > r.notBefore
    ensures Blocks(r, t) <==> t < FirstOpen(r)
  {
  }

  /** A client that starts at the published second is refused for at most that one second. */
  lemma WindowMeetsPolicy(r: Row, t: int)
    requires !r.revoked && MIN_LIFE <= Life(r) <= LONGEST
    ensures Blocks(r, t) <==> r.notAfter > t && (r.notAfter - t) * 100 > (r.notAfter - r.notBefore) * 33
    ensures Blocks(r, t) <==> t < FirstOpen(r)
    ensures FirstOpen(r) == if Life(r) * 33 % 100 == 0 then PublishedStart(r) else PublishedStart(r) + 1
    ensures PublishedStart(r) == (r.notAfter * 100 - (r.notAfter - r.notBefore) * 33) / 100
    ensures PublishedEnd(r) == (r.notAfter * 100 - (r.notAfter - r.notBefore) * 10) / 100
    ensures FirstOpen(r) < PublishedEnd(r) < r.notAfter
  {
    PolicyOpensThere(r, t);
    BackIsExact(Life(r), RENEW_PCT);
    BackIsExact(Life(r), CLOSE_PCT);
    var start, end := Edge(r.notBefore, r.notAfter, RENEW_PCT), Edge(r.notBefore, r.notAfter, CLOSE_PCT);
    assert start == r.notAfter * SECOND - Life(r) * RENEW_PCT * 10_000_000;
    assert end == r.notAfter * SECOND - Life(r) * CLOSE_PCT * 10_000_000;
  }

  // ---------------------------------------------------------------- certificate identifiers

  newtype byte = x: int | 0 <= x < 256

  /** `big.Int.Bytes`: big-endian, no leading zero, empty for zero. */
  function Bytes(n: nat): (b: seq<byte>)
    ensures Value(b) == n
    ensures b != [] ==> b[0] != 0
    ensures n == 0 <==> b == []
  {
    if n == 0 then [] else
      var rest := Bytes(n / 256);
      assert (rest + [(n % 256) as byte])[..|rest|] == rest;
      rest + [(n % 256) as byte]
  }

  function Value(b: seq<byte>): nat {
    if b == [] then 0 else Value(b[..|b| - 1]) * 256 + b[|b| - 1] as int
  }

  /** The DER INTEGER content octets of a serial number. */
  function DerIntBytes(n: nat): seq<byte> {
    var b := Bytes(n);
    if b == [] then [0] else if b[0] >= 128 then [0] + b else b
  }

  function Power(k: nat): nat {
    if k == 0 then 1 else 256 * Power(k - 1)
  }

  /** What two's complement makes of the octets: negative when the first bit is set. */
  function TwosComplement(b: seq<byte>): int {
    if b != [] && b[0] >= 128 then Value(b) - Power(|b|) else Value(b)
  }

  lemma {:induction false} LeadingZero(b: seq<byte>)
    ensures Value([0] + b) == Value(b)
    decreases |b|
  {
    if b == [] {
      assert [0] + b == [0] && [0 as byte][..0] == [];
    } else {
      assert ([0] + b)[..|b|] == [0] + b[..|b| - 1];
      LeadingZero(b[..|b| - 1]);
    }
  }

  /** The octets read back as the serial, never as a negative, and no octet could be dropped. */
  lemma DerIntRoundTrip(n: nat)
    ensures var b := DerIntBytes(n);
            && b != [] && TwosComplement(b) == n
            && (|b| > 1 && b[0] == 0 ==> b[1] >= 128)
  {
    LeadingZero(Bytes(n));
    if n == 0 {
      LeadingZero([]);
      assert [0 as byte] + [] == [0];
    }
  }

  /** The base64url alphabet, which has no dot. */
  function Digit(v: int): (c: char)
    requires 0 <= v < 64
    ensures c as int == if v < 26 then 65 + v else if v < 52 then 71 + v else if v < 62 then v - 4 else if v == 62 then 45 else 95
    ensures c != '.'
  {
    if v < 26 then 'A' + v as char else if v < 52 then 'a' + (v - 26) as char
    else if v < 62 then '0' + (v - 52) as char else if v == 62 then '-' else '_'
  }

  function Sextet(c: char): int {
    if 'A' <= c <= 'Z' then c as int - 'A' as int else if 'a' <= c <= 'z' then c as int - 'a' as int + 26
    else if '0' <= c <= '9' then c as int - '0' as int + 52 else if c == '-' then 62 else 63
  }

  /** Three octets as four characters. */
  function Quad(x: byte, y: byte, z: byte): (s: string)
    ensures |s| == 4 && '.' !in s
  {
    [Digit(x as int / 4), Digit(x as int % 4 * 16 + y as int / 16), Digit(y as int % 16 * 4 + z as int / 64), Digit(z as int % 64)]
  }

  function Triple(s: string): (b: seq<byte>)
    requires |s| == 4
    ensures |b| == 3
  {
    [Octet(Sextet(s[0]) * 4 + Sextet(s[1]) / 16), Octet(Sextet(s[1]) * 16 + Sextet(s[2]) / 4),
     Octet(Sextet(s[2]) * 64 + Sextet(s[3]))]
  }

  function Octet(v: int): byte {
    (v % 256) as byte
  }

  /** `RawURLEncoding`: no padding, so a last group of one or two octets takes two or three characters. */
  function Base64(b: seq<byte>): (s: string)
    ensures '.' !in s
  {
    if |b| == 0 then ""
    else if |b| == 1 then Quad(b[0], 0, 0)[..2]
    else if |b| == 2 then Quad(b[0], b[1], 0)[..3]
    else Quad(b[0], b[1], b[2]) + Base64(b[3..])
  }

  function Unbase64(s: string): seq<byte> {
    if |s| < 2 then []
    else if |s| == 2 then Triple(s + "AA")[..1]
    else if |s| == 3 then Triple(s + "A")[..2]
    else Triple(s[..4]) + Unbase64(s[4..])
  }

  lemma SextetOfDigit(v: int)
    requires 0 <= v < 64
    ensures Sextet(Digit(v)) == v
  {
  }

  /** The four characters are the digits, to the base 64, of the number the octets write to the base 256. */
  lemma QuadMeans(x: byte, y: byte, z: byte)
    ensures var s := Quad(x, y, z);
            ((Sextet(s[0]) * 64 + Sextet(s[1])) * 64 + Sextet(s[2])) * 64 + Sextet(s[3])
            == (x as int * 256 + y as int) * 256 + z as int
  {
    hide Digit, Sextet;
    SextetOfDigit(x as int / 4);
    SextetOfDigit(x as int % 4 * 16 + y as int / 16);
    SextetOfDigit(y as int % 16 * 4 + z as int / 64);
    SextetOfDigit(z as int % 64);
  }

  lemma SplitHigh(a: int, b: int)
    requires 0 <= b < 16
    ensures (a * 16 + b) / 16 == a
  {
  }

  lemma SplitMiddle(a: int, b: int)
    requires 0 <= b < 4
    ensures (a * 4 + b) / 4 == a
  {
  }

  lemma FirstOctet(x: int, y: int)
    requires 0 <= x < 256 && 0 <= y < 256
    ensures Octet(x / 4 * 4 + (x % 4 * 16 + y / 16) / 16) as int == x
  {
    SplitHigh(x % 4, y / 16);
  }

  lemma SecondOctet(x: int, y: int, z: int)
    requires 0 <= x < 256 && 0 <= y < 256 && 0 <= z < 256
    ensures Octet((x % 4 * 16 + y / 16) * 16 + (y % 16 * 4 + z / 64) / 4) as int == y
  {
    SplitMiddle(y % 16, z / 64);
    assert (x % 4 * 16 + y / 16) * 16 + y % 16 == x % 4 * 256 + y;
  }

  lemma ThirdOctet(y: int, z: int)
    requires 0 <= y < 256 && 0 <= z < 256
    ensures Octet((y % 16 * 4 + z / 64) * 64 + z % 64) as int == z
  {
    assert (y % 16 * 4 + z / 64) * 64 + z % 64 == y % 16 * 256 + z;
  }

  lemma QuadRoundTrip(x: byte, y: byte, z: byte)
    ensures Triple(Quad(x, y, z)) == [x, y, z]
  {
    hide Digit, Sextet, Octet;
    SextetOfDigit(x as int / 4);
    SextetOfDigit(x as int % 4 * 16 + y as int / 16);
    SextetOfDigit(y as int % 16 * 4 + z as int / 64);
    SextetOfDigit(z as int % 64);
    FirstOctet(x as int, y as int);
    SecondOctet(x as int, y as int, z as int);
    ThirdOctet(y as int, z as int);
  }

  lemma {:induction false} Base64RoundTrip(b: seq<byte>)
    ensures Unbase64(Base64(b)) == b
    decreases |b|
  {
    hide Triple, Digit;
    if |b| == 1 {
      QuadRoundTrip(b[0], 0, 0);
      assert Quad(b[0], 0, 0)[..2] + "AA" == Quad(b[0], 0, 0) by { ZeroPads(b[0], 0); }
    } else if |b| == 2 {
      QuadRoundTrip(b[0], b[1], 0);
      assert Quad(b[0], b[1], 0)[..3] + "A" == Quad(b[0], b[1], 0) by { ZeroPads(b[0], b[1]); }
    } else if |b| > 2 {
      hide Quad;
      QuadRoundTrip(b[0], b[1], b[2]);
      assert Base64(b)[..4] == Quad(b[0], b[1], b[2]) && Base64(b)[4..] == Base64(b[3..]);
      Base64RoundTrip(b[3..]);
    }
  }

  lemma ZeroPads(x: byte, y: byte)
    ensures Quad(x, 0, 0)[2..] == "AA" && Quad(x, y, 0)[3..] == "A"
  {
  }

  /** The identifier of RFC 9773 section 4.1: the authority key id and the serial, joined by a dot. */
  function AriId(aki: seq<byte>, serial: nat): Option<string> {
    if aki == [] then None else Some(Base64(aki) + "." + Base64(DerIntBytes(serial)))
  }

  lemma {:induction false} DotSplits(a: string, b: string, c: string, d: string)
    requires '.' !in a && '.' !in c && a + "." + b == c + "." + d
    ensures a == c && b == d
  {
    var x, y := a + "." + b, c + "." + d;
    assert x[0] == (if a == "" then '.' else a[0]) && y[0] == (if c == "" then '.' else c[0]);
    if a == "" {
      assert x[1..] == b && y[1..] == d;
    } else {
      assert x[1..] == a[1..] + "." + b && y[1..] == c[1..] + "." + d;
      DotSplits(a[1..], b, c[1..], d);
    }
  }

  /** An identifier names one issuer key and one serial. */
  lemma AriIdIsInjective(aki1: seq<byte>, serial1: nat, aki2: seq<byte>, serial2: nat)
    requires AriId(aki1, serial1).Some? && AriId(aki1, serial1) == AriId(aki2, serial2)
    ensures aki1 == aki2 && serial1 == serial2
  {
    DotSplits(Base64(aki1), Base64(DerIntBytes(serial1)), Base64(aki2), Base64(DerIntBytes(serial2)));
    Base64RoundTrip(aki1);
    Base64RoundTrip(aki2);
    Base64RoundTrip(DerIntBytes(serial1));
    Base64RoundTrip(DerIntBytes(serial2));
    DerIntRoundTrip(serial1);
    DerIntRoundTrip(serial2);
  }
}
