/** Standard base64 as the desktop shell encodes the bridge identity, against the encoding and
    decoding of section 4 of RFC 4648. Shifts and masks on the 24-bit group are written as
    division and remainder by powers of two. */
module Base64 {
  import opened Wrappers

  type Octet = x: int | 0 <= x < 256
  type Sextet = x: int | 0 <= x < 64

  const UPPER: string := "ABCDEFGHIJKLMNOPQRSTUVWXYZ"
  const LOWER: string := "abcdefghijklmnopqrstuvwxyz"
  const OTHERS: string := "0123456789+/"
  const TABLE: string := UPPER + LOWER + OTHERS
  const PAD: char := '='

  /** The encoder: one 24-bit number per chunk of up to three octets, four characters each. */
  method Encode(input: seq<Octet>) returns (out: string)
    ensures out == Encoded(input)
  {
    out := "";
    var at := 0;
    while at < |input|
      invariant 0 <= at <= |input|
      invariant out + Encoded(input[at..]) == Encoded(input)
    {
      var end := if at + 3 <= |input| then at + 3 else |input|;
      var chunk := input[at..end];
      var group := EncodeChunk(chunk);
      EncodedFrom(input, at, end);
      assert out + (group + Encoded(input[end..])) == (out + group) + Encoded(input[end..]);
      out := out + group;
      at := end;
    }
    assert out + Encoded([]) == out;
  }

  /** The rest of the encoding is one group and the rest after that. */
  lemma EncodedFrom(input: seq<Octet>, at: nat, end: nat)
    requires at < end <= |input| && end == if at + 3 <= |input| then at + 3 else |input|
    ensures Encoded(input[at..]) == Group(input[at..end]) + Encoded(input[end..])
  {
    assert input[at..][..end - at] == input[at..end] && input[at..][end - at..] == input[end..];
  }

  /** The body of the encoder's loop. */
  method EncodeChunk(chunk: seq<Octet>) returns (group: string)
    requires 1 <= |chunk| <= 3
    ensures group == Group(chunk)
  {
    var b0: int := chunk[0];
    var b1: int := if |chunk| > 1 then chunk[1] else 0;
    var b2: int := if |chunk| > 2 then chunk[2] else 0;
    var n := b0 * 65536 + b1 * 256 + b2;
    SplitGroup(b0, b1, b2);
    var c0 := LookUp(n / 262144 % 64);
    var c1 := LookUp(n / 4096 % 64);
    var c2, c3 := PAD, PAD;
    if |chunk| > 1 { c2 := LookUp(n / 64 % 64); }
    if |chunk| > 2 { c3 := LookUp(n % 64); }
    group := [c0, c1, c2, c3];
  }

  method LookUp(v: Sextet) returns (c: char)
    ensures c == Letter(v)
  {
    TableIsAlphabet(v);
    c := TABLE[v];
  }

  // ---------------------------------------------------------------- RFC 4648

  /** Table 1 of RFC 4648. */
  function Letter(v: Sextet): char {
    if v < 26 then 'A' + v as char
    else if v < 52 then 'a' + (v - 26) as char
    else if v < 62 then '0' + (v - 52) as char
    else if v == 62 then '+' else '/'
  }

  /** The value of an alphabet character, the same table read backwards. */
  function Value(c: char): Option<Sextet> {
    if 'A' <= c <= 'Z' then Some(c as int - 'A' as int)
    else if 'a' <= c <= 'z' then Some(c as int - 'a' as int + 26)
    else if '0' <= c <= '9' then Some(c as int - '0' as int + 52)
    else if c == '+' then Some(62)
    else if c == '/' then Some(63)
    else None
  }

  /** The characters of one chunk: its bits, six at a time, filled up with zeros and padding. */
  function Group(chunk: seq<Octet>): (g: string)
    requires 1 <= |chunk| <= 3
    ensures |g| == 4
  {
    if |chunk| == 1 then [Letter(chunk[0] / 4), Letter(chunk[0] % 4 * 16), PAD, PAD]
    else if |chunk| == 2 then
      [Letter(chunk[0] / 4), Letter(chunk[0] % 4 * 16 + chunk[1] / 16), Letter(chunk[1] % 16 * 4), PAD]
    else
      [Letter(chunk[0] / 4), Letter(chunk[0] % 4 * 16 + chunk[1] / 16),
       Letter(chunk[1] % 16 * 4 + chunk[2] / 64), Letter(chunk[2] % 64)]
  }

  function Encoded(input: seq<Octet>): string {
    if input == [] then ""
    else if |input| <= 3 then Group(input)
    else Group(input[..3]) + Encoded(input[3..])
  }

  /** One group of four characters; padding is admitted in the last group only, and the bits it
      leaves over must be zero (section 3.5 of RFC 4648). */
  function DecodeGroup(g: string, last: bool): Option<seq<Octet>>
    requires |g| == 4
  {
    var v0, v1, v2, v3 := Value(g[0]), Value(g[1]), Value(g[2]), Value(g[3]);
    if v0 == None || v1 == None then None
    else if g[2] == PAD && g[3] == PAD then
      if last && v1.value % 16 == 0 then Some([v0.value * 4 + v1.value / 16]) else None
    else if v2 == None then None
    else if g[3] == PAD then
      if last && v2.value % 4 == 0
      then Some([v0.value * 4 + v1.value / 16, v1.value % 16 * 16 + v2.value / 4]) else None
    else if v3 == None then None
    else Some([v0.value * 4 + v1.value / 16, v1.value % 16 * 16 + v2.value / 4, v2.value % 4 * 64 + v3.value])
  }

  function Decode(s: string): Option<seq<Octet>> {
    if s == "" then Some([])
    else if |s| < 4 then None
    else
      var head := DecodeGroup(s[..4], |s| == 4);
      if head == None then None
      else
        var tail := Decode(s[4..]);
        if tail == None then None else Some(head.value + tail.value)
  }

  // ---------------------------------------------------------------- bits

  lemma SmallMultiple(k: int, d: int, m: int)
    requires k * d == m && -d < m < d
    ensures k == 0
  {
  }

  /** Quotient and remainder are determined by the division identity. */
  lemma Divides(x: int, d: int, q: int, r: int)
    requires 0 <= r < d && x == q * d + r
    ensures x / d == q && x % d == r
  {
    var q', r' := x / d, x % d;
    assert (q' - q) * d == r - r';
    SmallMultiple(q' - q, d, r - r');
  }

  /** The 24-bit number cut into four sextets is the octets' own bits, six at a time. */
  lemma SplitGroup(b0: Octet, b1: Octet, b2: Octet)
    ensures var n := b0 * 65536 + b1 * 256 + b2;
            && n / 262144 % 64 == b0 / 4
            && n / 4096 % 64 == b0 % 4 * 16 + b1 / 16
            && n / 64 % 64 == b1 % 16 * 4 + b2 / 64
            && n % 64 == b2 % 64
  {
    SplitParts(b0 / 4, b0 % 4, b1 / 16, b1 % 16, b2 / 64, b2 % 64);
  }

  lemma SplitParts(h0: nat, l0: nat, h1: nat, l1: nat, h2: nat, l2: nat)
    requires h0 < 64 && l0 < 4 && h1 < 16 && l1 < 16 && h2 < 4 && l2 < 64
    ensures var n := (h0 * 4 + l0) * 65536 + (h1 * 16 + l1) * 256 + (h2 * 64 + l2);
            && n / 262144 % 64 == h0
            && n / 4096 % 64 == l0 * 16 + h1
            && n / 64 % 64 == l1 * 4 + h2
            && n % 64 == l2
  {
    var n := (h0 * 4 + l0) * 65536 + (h1 * 16 + l1) * 256 + (h2 * 64 + l2);
    Divides(n, 262144, h0, l0 * 65536 + (h1 * 16 + l1) * 256 + (h2 * 64 + l2));
    Divides(h0, 64, 0, h0);
    Divides(n, 4096, h0 * 64 + l0 * 16 + h1, l1 * 256 + (h2 * 64 + l2));
    Divides(h0 * 64 + l0 * 16 + h1, 64, h0, l0 * 16 + h1);
    var top := (h0 * 4 + l0) * 1024 + h1 * 64 + l1 * 4 + h2;
    Divides(n, 64, top, l2);
    Divides(top, 64, (h0 * 4 + l0) * 16 + h1, l1 * 4 + h2);
  }

  /** The encoder's table holds the alphabet in order. */
  lemma TableIsAlphabet(v: Sextet)
    ensures |TABLE| == 64 && TABLE[v] == Letter(v)
  {
  }

  // ---------------------------------------------------------------- round trip

  /** Cutting three octets into sextets and joining these again is the identity. */
  lemma Rejoin(b0: Octet, b1: Octet, b2: Octet)
    ensures b0 / 4 * 4 + (b0 % 4 * 16 + b1 / 16) / 16 == b0
    ensures (b0 % 4 * 16 + b1 / 16) % 16 * 16 + (b1 % 16 * 4 + b2 / 64) / 4 == b1
    ensures (b1 % 16 * 4 + b2 / 64) % 4 * 64 + b2 % 64 == b2
  {
  }

  lemma ValueOfLetter(v: Sextet)
    ensures Letter(v) != PAD && Value(Letter(v)) == Some(v)
  {
  }

  /** What a group of letters decodes to, in terms of their values. */
  lemma DecodeLetters(s0: Sextet, s1: Sextet, s2: Sextet, s3: Sextet)
    ensures DecodeGroup([Letter(s0), Letter(s1), Letter(s2), Letter(s3)], false)
         == DecodeGroup([Letter(s0), Letter(s1), Letter(s2), Letter(s3)], true)
         == Some([s0 * 4 + s1 / 16, s1 % 16 * 16 + s2 / 4, s2 % 4 * 64 + s3])
    ensures s2 % 4 == 0 ==>
      DecodeGroup([Letter(s0), Letter(s1), Letter(s2), PAD], true) == Some([s0 * 4 + s1 / 16, s1 % 16 * 16 + s2 / 4])
    ensures s1 % 16 == 0 ==>
      DecodeGroup([Letter(s0), Letter(s1), PAD, PAD], true) == Some([s0 * 4 + s1 / 16])
  {
    ValueOfLetter(s0);
    ValueOfLetter(s1);
    ValueOfLetter(s2);
    ValueOfLetter(s3);
  }

  lemma OneRoundTrip(b0: Octet)
    ensures DecodeGroup(Group([b0]), true) == Some([b0])
  {
  }

  lemma TwoRoundTrip(b0: Octet, b1: Octet)
    ensures DecodeGroup(Group([b0, b1]), true) == Some([b0, b1])
  {
    var s0: Sextet, s1: Sextet, s2: Sextet := b0 / 4, b0 % 4 * 16 + b1 / 16, b1 % 16 * 4;
    assert Group([b0, b1]) == [Letter(s0), Letter(s1), Letter(s2), PAD];
    assert s2 % 4 == 0 && s0 * 4 + s1 / 16 == b0 && s1 % 16 * 16 + s2 / 4 == b1 by {
      Rejoin(b0, b1, 0);
      Divides(b1 % 16 * 4, 4, b1 % 16, 0);
    }
    DecodeLetters(s0, s1, s2, 0);
  }

  lemma ThreeRoundTrip(b0: Octet, b1: Octet, b2: Octet, last: bool)
    ensures DecodeGroup(Group([b0, b1, b2]), last) == Some([b0, b1, b2])
  {
    var s0: Sextet, s1: Sextet := b0 / 4, b0 % 4 * 16 + b1 / 16;
    var s2: Sextet, s3: Sextet := b1 % 16 * 4 + b2 / 64, b2 % 64;
    assert Group([b0, b1, b2]) == [Letter(s0), Letter(s1), Letter(s2), Letter(s3)];
    assert s0 * 4 + s1 / 16 == b0 && s1 % 16 * 16 + s2 / 4 == b1 && s2 % 4 * 64 + s3 == b2 by {
      Rejoin(b0, b1, b2);
    }
    DecodeLetters(s0, s1, s2, s3);
  }

  lemma GroupRoundTrip(chunk: seq<Octet>, last: bool)
    requires 1 <= |chunk| <= 3 && (last || |chunk| == 3)
    ensures DecodeGroup(Group(chunk), last) == Some(chunk)
  {
    if |chunk| == 1 {
      OneRoundTrip(chunk[0]);
      assert chunk == [chunk[0]];
    } else if |chunk| == 2 {
      TwoRoundTrip(chunk[0], chunk[1]);
      assert chunk == [chunk[0], chunk[1]];
    } else {
      ThreeRoundTrip(chunk[0], chunk[1], chunk[2], last);
      assert chunk == [chunk[0], chunk[1], chunk[2]];
    }
  }

  /** Decoding gives back what was encoded, for every sequence of octets. */
  lemma {:induction false} RoundTrip(input: seq<Octet>)
    ensures Decode(Encoded(input)) == Some(input)
    decreases |input|
  {
    if 0 < |input| <= 3 {
      GroupRoundTrip(input, true);
      assert Encoded(input)[..4] == Group(input) && Encoded(input)[4..] == "";
      assert input + [] == input;
    } else if |input| > 3 {
      var head, tail := input[..3], input[3..];
      RoundTrip(tail);
      EncodedNotEmpty(tail);
      GroupRoundTrip(head, false);
      assert Encoded(input)[..4] == Group(head) && Encoded(input)[4..] == Encoded(tail);
      assert head + tail == input;
    }
  }

  lemma EncodedNotEmpty(input: seq<Octet>)
    requires input != []
    ensures Encoded(input) != ""
  {
  }

  /** The length is four characters per started group of three octets. */
  lemma {:induction false} EncodedLength(input: seq<Octet>)
    ensures |Encoded(input)| == (|input| + 2) / 3 * 4
    decreases |input|
  {
    if |input| > 3 {
      EncodedLength(input[3..]);
      var m := |input| - 3 + 2;
      Divides(|input| + 2, 3, m / 3 + 1, m % 3);
    }
  }

  /** The padding characters the length calls for. */
  function PadCount(n: nat): nat {
    if n % 3 == 0 then 0 else 3 - n % 3
  }

  /** Every character is an alphabet character except for the padding, which comes last. */
  lemma {:induction false} EncodedShape(input: seq<Octet>, k: nat)
    requires k < |Encoded(input)|
    ensures Encoded(input)[k] == PAD <==> k >= |Encoded(input)| - PadCount(|input|)
    ensures Encoded(input)[k] != PAD ==> Value(Encoded(input)[k]).Some?
    decreases |input|
  {
    if |input| > 3 {
      Divides(|input|, 3, |input[3..]| / 3 + 1, |input[3..]| % 3);
      EncodedNotEmpty(input[3..]);
      EncodedLength(input[3..]);
      if k < 4 { GroupShape(input[..3], k); } else { EncodedShape(input[3..], k - 4); }
    } else {
      GroupShape(input, k);
    }
  }

  lemma GroupShape(chunk: seq<Octet>, k: nat)
    requires 1 <= |chunk| <= 3 && k < 4
    ensures Group(chunk)[k] == PAD <==> k >= 1 + |chunk|
    ensures Group(chunk)[k] != PAD ==> Value(Group(chunk)[k]).Some?
  {
  }
}
