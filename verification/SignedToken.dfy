/**
 * Download tokens: a base64url body, a dot, and the base64url signature of the body. Base64 follows
 * sections 4 and 5 of RFC 4648.
 */
module SignedToken {
  import opened Prelude

  type Byte = b: int | 0 <= b < 256

  type Sextet = v: int | 0 <= v < 64

  // ---- base64 ----

  function Digit(v: Sextet): char {
    if v < 26 then ('A' as int + v) as char
    else if v < 52 then ('a' as int + v - 26) as char
    else if v < 62 then ('0' as int + v - 52) as char
    else if v == 62 then '+'
    else '/'
  }

  predicate IsDigit(c: char) {
    'A' <= c <= 'Z' || 'a' <= c <= 'z' || '0' <= c <= '9' || c == '+' || c == '/'
  }

  function Value(c: char): Sextet
    requires IsDigit(c)
  {
    if 'A' <= c <= 'Z' then c as int - 'A' as int
    else if 'a' <= c <= 'z' then c as int - 'a' as int + 26
    else if '0' <= c <= '9' then c as int - '0' as int + 52
    else if c == '+' then 62
    else 63
  }

  function Quad(x: Byte, y: Byte, z: Byte): string {
    [Digit(x / 4), Digit(x % 4 * 16 + y / 16), Digit(y % 16 * 4 + z / 64), Digit(z % 64)]
  }

  /** Section 4, with padding. */
  function Base64(b: seq<Byte>): string {
    if |b| == 0 then ""
    else if |b| == 1 then [Digit(b[0] / 4), Digit(b[0] % 4 * 16), '=', '=']
    else if |b| == 2 then [Digit(b[0] / 4), Digit(b[0] % 4 * 16 + b[1] / 16), Digit(b[1] % 16 * 4), '=']
    else Quad(b[0], b[1], b[2]) + Base64(b[3..])
  }

  function First(s: string): Byte
    requires |s| >= 2 && IsDigit(s[0]) && IsDigit(s[1])
  {
    Value(s[0]) * 4 + Value(s[1]) / 16
  }

  function Second(s: string): Byte
    requires |s| >= 3 && IsDigit(s[1]) && IsDigit(s[2])
  {
    Value(s[1]) % 16 * 16 + Value(s[2]) / 4
  }

  function Third(s: string): Byte
    requires |s| >= 4 && IsDigit(s[2]) && IsDigit(s[3])
  {
    Value(s[2]) % 4 * 64 + Value(s[3])
  }

  predicate StartsWithDigits(s: string, n: nat) {
    n <= |s| && forall i | 0 <= i < n :: IsDigit(s[i])
  }

  /** None when the text is not padded base64. Leftover bits of the last digit are ignored. */
  function Unbase64(s: string): Option<seq<Byte>> {
    if s == "" then Some([])
    else if |s| == 4 && s[2..] == "==" && StartsWithDigits(s, 2) then Some([First(s)])
    else if |s| == 4 && s[3] == '=' && StartsWithDigits(s, 3) then Some([First(s), Second(s)])
    else if StartsWithDigits(s, 4) then
      var rest := Unbase64(s[4..]);
      if rest.Some? then Some([First(s), Second(s), Third(s)] + rest.value) else None
    else None
  }

  // ---- the url form ----

  function ToUrl(c: char): char {
    if c == '+' then '-' else if c == '/' then '_' else c
  }

  function FromUrl(c: char): char {
    if c == '-' then '+' else if c == '_' then '/' else c
  }

  function AllToUrl(s: string): string {
    seq(|s|, i requires 0 <= i < |s| => ToUrl(s[i]))
  }

  function AllFromUrl(s: string): string {
    seq(|s|, i requires 0 <= i < |s| => FromUrl(s[i]))
  }

  function StripPadding(s: string): string {
    if s != "" && s[|s| - 1] == '=' then StripPadding(s[..|s| - 1]) else s
  }

  function UrlEncode(b: seq<Byte>): string {
    StripPadding(AllToUrl(Base64(b)))
  }

  function Padding(n: nat): string {
    seq((4 - n % 4) % 4, _ => '=')
  }

  function Padded(s: string): string {
    AllFromUrl(s) + Padding(|s|)
  }

  /** What the platform makes of text that is not base64 is a parameter. */
  function UrlDecode(lenient: string -> seq<Byte>, s: string): seq<Byte> {
    var b := Unbase64(Padded(s));
    if b.Some? then b.value else lenient(Padded(s))
  }

  // ---- decode undoes encode ----

  lemma DigitValue(v: Sextet)
    ensures IsDigit(Digit(v)) && Value(Digit(v)) == v
    ensures IsDigit(FromUrl(ToUrl(Digit(v)))) && FromUrl(ToUrl(Digit(v))) == Digit(v)
  {
  }

  lemma ValueDigit(c: char)
    requires IsDigit(c)
    ensures Digit(Value(c)) == c
  {
  }

  lemma UnbasePair(a: Sextet, b: Sextet)
    ensures Unbase64([Digit(a), Digit(b), '=', '=']) == Some([a * 4 + b / 16])
  {
    DigitValue(a);
    DigitValue(b);
    var s := [Digit(a), Digit(b), '=', '='];
    assert s[2..] == "==";
    assert StartsWithDigits(s, 2);
  }

  lemma UnbaseOne(x: Byte)
    ensures Unbase64([Digit(x / 4), Digit(x % 4 * 16), '=', '=']) == Some([x])
  {
    UnbasePair(x / 4, x % 4 * 16);
  }

  lemma OneUndoes(x: Byte)
    ensures Unbase64(Base64([x])) == Some([x])
  {
    BaseOne([x]);
    UnbaseOne(x);
  }

  lemma BaseOne(b: seq<Byte>)
    requires |b| == 1
    ensures Base64(b) == [Digit(b[0] / 4), Digit(b[0] % 4 * 16), '=', '=']
  {
  }

  /** Three digits and one padding character. */
  lemma UnbaseTriple(a: Sextet, b: Sextet, c: Sextet)
    ensures Unbase64([Digit(a), Digit(b), Digit(c), '=']) == Some([a * 4 + b / 16, b % 16 * 16 + c / 4])
  {
    DigitValue(a);
    DigitValue(b);
    DigitValue(c);
    var s := [Digit(a), Digit(b), Digit(c), '='];
    assert s[2..][0] != "=="[0];
    assert StartsWithDigits(s, 3);
  }

  lemma SplitTwo(x: Byte, y: Byte)
    ensures var d, e, f := x / 4, x % 4 * 16 + y / 16, y % 16 * 4;
      d * 4 + e / 16 == x && e % 16 * 16 + f / 4 == y
  {
  }

  lemma BaseTwo(b: seq<Byte>)
    requires |b| == 2
    ensures Base64(b) == [Digit(b[0] / 4), Digit(b[0] % 4 * 16 + b[1] / 16), Digit(b[1] % 16 * 4), '=']
  {
  }

  lemma UnbaseTwo(x: Byte, y: Byte)
    ensures Unbase64([Digit(x / 4), Digit(x % 4 * 16 + y / 16), Digit(y % 16 * 4), '=']) == Some([x, y])
  {
    SplitTwo(x, y);
    UnbaseTriple(x / 4, x % 4 * 16 + y / 16, y % 16 * 4);
  }

  lemma TwoUndoes(x: Byte, y: Byte)
    ensures Unbase64(Base64([x, y])) == Some([x, y])
  {
    BaseTwo([x, y]);
    UnbaseTwo(x, y);
  }

  lemma BaseLong(x: Byte, y: Byte, z: Byte, rest: seq<Byte>)
    ensures Base64([x, y, z] + rest) == Quad(x, y, z) + Base64(rest)
  {
    assert ([x, y, z] + rest)[3..] == rest;
  }

  lemma LongUndoes(x: Byte, y: Byte, z: Byte, rest: seq<Byte>)
    requires Unbase64(Base64(rest)) == Some(rest)
    ensures Unbase64(Base64([x, y, z] + rest)) == Some([x, y, z] + rest)
  {
    BaseLong(x, y, z, rest);
    QuadUndoes(x, y, z, Base64(rest));
  }

  lemma {:induction false} Unbase64Undoes(b: seq<Byte>)
    ensures Unbase64(Base64(b)) == Some(b)
  {
    if |b| == 1 {
      assert b == [b[0]];
      OneUndoes(b[0]);
    } else if |b| == 2 {
      assert b == [b[0], b[1]];
      TwoUndoes(b[0], b[1]);
    } else if |b| > 2 {
      Unbase64Undoes(b[3..]);
      assert b == [b[0], b[1], b[2]] + b[3..];
      LongUndoes(b[0], b[1], b[2], b[3..]);
    }
  }

  lemma QuadUndoes(x: Byte, y: Byte, z: Byte, rest: string)
    ensures var s := Quad(x, y, z) + rest;
      && StartsWithDigits(s, 4) && s[4..] == rest
      && First(s) == x && Second(s) == y && Third(s) == z && s[3] != '='
  {
    DigitValue(x / 4);
    DigitValue(x % 4 * 16 + y / 16);
    DigitValue(y % 16 * 4 + z / 64);
    DigitValue(z % 64);
  }

  /** Text of the url alphabet. */
  predicate IsUrl(s: string) {
    forall i | 0 <= i < |s| :: s[i] == ToUrl(s[i]) && IsDigit(FromUrl(s[i]))
  }

  lemma StripUrl(a: string, s: string)
    requires IsUrl(a) && (forall i | 0 <= i < |s| :: s[i] == '=')
    ensures StripPadding(a + s) == a
    decreases |s|
  {
    if s == "" {
      assert a + s == a;
      assert '=' !in a;
    } else {
      assert (a + s)[..|a + s| - 1] == a + s[..|s| - 1];
      StripUrl(a, s[..|s| - 1]);
    }
  }

  /** The digits of an encoding without its padding, group by group. */
  function Body(b: seq<Byte>): string {
    if |b| == 0 then ""
    else if |b| == 1 then AllToUrl([Digit(b[0] / 4), Digit(b[0] % 4 * 16)])
    else if |b| == 2 then AllToUrl([Digit(b[0] / 4), Digit(b[0] % 4 * 16 + b[1] / 16), Digit(b[1] % 16 * 4)])
    else AllToUrl(Quad(b[0], b[1], b[2])) + Body(b[3..])
  }

  lemma AllToUrlConcat(a: string, b: string)
    ensures AllToUrl(a + b) == AllToUrl(a) + AllToUrl(b)
  {
  }

  lemma AllFromUrlConcat(a: string, b: string)
    ensures AllFromUrl(a + b) == AllFromUrl(a) + AllFromUrl(b)
  {
  }

  lemma DigitsUrl(q: string)
    requires forall i | 0 <= i < |q| :: IsDigit(q[i])
    ensures IsUrl(AllToUrl(q)) && AllFromUrl(AllToUrl(q)) == q
  {
  }

  lemma QuadUrl(x: Byte, y: Byte, z: Byte)
    ensures var q := AllToUrl(Quad(x, y, z)); IsUrl(q) && |q| == 4 && AllFromUrl(q) == Quad(x, y, z)
  {
    DigitValue(x / 4);
    DigitValue(x % 4 * 16 + y / 16);
    DigitValue(y % 16 * 4 + z / 64);
    DigitValue(z % 64);
    DigitsUrl(Quad(x, y, z));
  }

  lemma OneShape(b: seq<Byte>)
    requires |b| == 1
    ensures IsUrl(Body(b)) && |Body(b)| == 2
    ensures AllToUrl(Base64(b)) == Body(b) + "==" && AllFromUrl(Body(b)) + "==" == Base64(b)
  {
    var digits := [Digit(b[0] / 4), Digit(b[0] % 4 * 16)];
    DigitValue(b[0] / 4);
    DigitValue(b[0] % 4 * 16);
    DigitsUrl(digits);
    assert Base64(b) == digits + "==";
    AllToUrlConcat(digits, "==");
    assert AllToUrl("==") == "==";
  }

  lemma TwoShape(b: seq<Byte>)
    requires |b| == 2
    ensures IsUrl(Body(b)) && |Body(b)| == 3
    ensures AllToUrl(Base64(b)) == Body(b) + "=" && AllFromUrl(Body(b)) + "=" == Base64(b)
  {
    var digits := [Digit(b[0] / 4), Digit(b[0] % 4 * 16 + b[1] / 16), Digit(b[1] % 16 * 4)];
    DigitValue(b[0] / 4);
    DigitValue(b[0] % 4 * 16 + b[1] / 16);
    DigitValue(b[1] % 16 * 4);
    DigitsUrl(digits);
    assert Base64(b) == digits + "=";
    AllToUrlConcat(digits, "=");
    assert AllToUrl("=") == "=";
  }

  ghost predicate Shaped(b: seq<Byte>) {
    && IsUrl(Body(b)) && |Body(b)| == (4 * |b| + 2) / 3
    && AllToUrl(Base64(b)) == Body(b) + Padding(|Body(b)|)
    && AllFromUrl(Body(b)) + Padding(|Body(b)|) == Base64(b)
  }

  lemma PaddingOf(n: nat)
    ensures Padding(4 + n) == Padding(n)
  {
    assert (4 + n) % 4 == n % 4;
  }

  lemma LongShape(b: seq<Byte>)
    requires |b| > 2 && Shaped(b[3..])
    ensures Shaped(b)
  {
    var q, rest := Quad(b[0], b[1], b[2]), b[3..];
    QuadUrl(b[0], b[1], b[2]);
    PaddingOf(|Body(rest)|);
    AllToUrlConcat(q, Base64(rest));
    AllFromUrlConcat(AllToUrl(q), Body(rest));
    assert Body(b) == AllToUrl(q) + Body(rest) && Base64(b) == q + Base64(rest);
    assert AllToUrl(q) + (Body(rest) + Padding(|Body(rest)|)) == Body(b) + Padding(|Body(rest)|);
    assert q + (AllFromUrl(Body(rest)) + Padding(|Body(rest)|)) == AllFromUrl(Body(b)) + Padding(|Body(rest)|);
  }

  lemma {:induction false} BodyShape(b: seq<Byte>)
    ensures Shaped(b)
  {
    if |b| > 2 {
      BodyShape(b[3..]);
      LongShape(b);
    } else if |b| == 2 {
      TwoShape(b);
      assert Padding(3) == "=";
    } else if |b| == 1 {
      OneShape(b);
      assert Padding(2) == "==";
    }
  }

  lemma UrlDigit(v: Sextet)
    ensures var c := ToUrl(Digit(v)); c == ToUrl(c) && IsDigit(FromUrl(c)) && FromUrl(c) == Digit(v)
  {
  }

  lemma EncodeIsBody(b: seq<Byte>)
    ensures UrlEncode(b) == Body(b)
  {
    BodyShape(b);
    StripUrl(Body(b), Padding(|Body(b)|));
  }

  /** The padding is right for every length: n bytes take the rounded up 4n/3 digits, and the stripped padding comes back. */
  lemma PaddingRestored(b: seq<Byte>)
    ensures |UrlEncode(b)| == (4 * |b| + 2) / 3 && Padded(UrlEncode(b)) == Base64(b)
  {
    EncodeIsBody(b);
    BodyShape(b);
  }

  /** Main result: decode undoes encode for every byte string. */
  lemma DecodeUndoesEncode(lenient: string -> seq<Byte>, b: seq<Byte>)
    ensures UrlDecode(lenient, UrlEncode(b)) == b
  {
    PaddingRestored(b);
    Unbase64Undoes(b);
  }

  lemma EncodeInjective(a: seq<Byte>, b: seq<Byte>)
    requires UrlEncode(a) == UrlEncode(b)
    ensures a == b
  {
    var any := (_: string) => [];
    DecodeUndoesEncode(any, a);
    DecodeUndoesEncode(any, b);
  }

  // ---- which texts are encodings ----

  /** Digits only, no single digit over, and no bits left over in the last one. */
  predicate IsEncoding(s: string) {
    && IsUrl(s)
    && |s| % 4 != 1
    && (|s| % 4 == 2 ==> Value(FromUrl(s[|s| - 1])) % 16 == 0)
    && (|s| % 4 == 3 ==> Value(FromUrl(s[|s| - 1])) % 4 == 0)
  }

  lemma EncodingConcat(q: string, rest: string)
    requires |q| == 4 && IsUrl(q)
    ensures IsEncoding(q + rest) <==> IsEncoding(rest)
  {
    var s := q + rest;
    assert |s| % 4 == |rest| % 4;
    assert forall i | 0 <= i < |rest| :: rest[i] == s[i + 4];
    if rest != "" {
      assert s[|s| - 1] == rest[|rest| - 1];
    }
  }

  lemma {:induction false} BodyIsEncoding(b: seq<Byte>)
    ensures IsEncoding(Body(b))
  {
    BodyShape(b);
    if |b| > 2 {
      BodyIsEncoding(b[3..]);
      QuadUrl(b[0], b[1], b[2]);
      EncodingConcat(AllToUrl(Quad(b[0], b[1], b[2])), Body(b[3..]));
    } else if |b| == 2 {
      UrlDigit(b[1] % 16 * 4);
      DigitValue(b[1] % 16 * 4);
    } else if |b| == 1 {
      UrlDigit(b[0] % 4 * 16);
      DigitValue(b[0] % 4 * 16);
    }
  }

  lemma PaddedGroup(s: string)
    requires |s| >= 4
    ensures Padded(s) == AllFromUrl(s[..4]) + Padded(s[4..])
  {
  }

  lemma UrlOf(c: char)
    requires c == ToUrl(c) && IsDigit(FromUrl(c))
    ensures ToUrl(Digit(Value(FromUrl(c)))) == c
  {
    ValueDigit(FromUrl(c));
  }

  lemma QuadOf(p: string)
    requires StartsWithDigits(p, 4)
    ensures Quad(First(p), Second(p), Third(p)) == [p[0], p[1], p[2], p[3]]
  {
    Regroup(Value(p[0]), Value(p[1]), Value(p[2]), Value(p[3]));
    ValueDigit(p[0]);
    ValueDigit(p[1]);
    ValueDigit(p[2]);
    ValueDigit(p[3]);
  }

  lemma GroupOf(s: string)
    requires |s| >= 4 && IsUrl(s)
    ensures var p := Padded(s);
      && StartsWithDigits(p, 4) && p[3] != '=' && p[4..] == Padded(s[4..])
      && AllToUrl(Quad(First(p), Second(p), Third(p))) == s[..4]
  {
    PaddedGroup(s);
    var p := Padded(s);
    assert p[..4] == AllFromUrl(s[..4]);
    assert forall i | 0 <= i < 4 :: p[i] == p[..4][i] == FromUrl(s[i]) && ToUrl(p[i]) == s[i];
    QuadOf(p);
  }

  lemma Regroup(a: Sextet, b: Sextet, c: Sextet, d: Sextet)
    ensures var x, y, z := a * 4 + b / 16, b % 16 * 16 + c / 4, c % 4 * 64 + d;
      x / 4 == a && x % 4 * 16 + y / 16 == b && y % 16 * 4 + z / 64 == c && z % 64 == d
  {
  }

  lemma PairUndoes(s: string)
    requires IsEncoding(s) && |s| == 2
    ensures Unbase64(Padded(s)).Some? && Body(Unbase64(Padded(s)).value) == s
  {
    var p := Padded(s);
    assert p == [FromUrl(s[0]), FromUrl(s[1]), '=', '='];
    UrlOf(s[0]);
    UrlOf(s[1]);
    Regroup(Value(p[0]), Value(p[1]), 0, 0);
    assert p[2..] == "==";
  }

  lemma TripleUndoes(s: string)
    requires IsEncoding(s) && |s| == 3
    ensures Unbase64(Padded(s)).Some? && Body(Unbase64(Padded(s)).value) == s
  {
    var p := Padded(s);
    assert p == [FromUrl(s[0]), FromUrl(s[1]), FromUrl(s[2]), '='];
    UrlOf(s[0]);
    UrlOf(s[1]);
    UrlOf(s[2]);
    ValueDigit(p[0]);
    ValueDigit(p[1]);
    ValueDigit(p[2]);
    var a, b, c := Value(p[0]), Value(p[1]), Value(p[2]);
    UnbaseTriple(a, b, c);
    TripleBody(a, b, c);
    assert s == AllToUrl([Digit(a), Digit(b), Digit(c)]);
  }

  lemma TripleBody(a: Sextet, b: Sextet, c: Sextet)
    requires c % 4 == 0
    ensures Body([a * 4 + b / 16, b % 16 * 16 + c / 4]) == AllToUrl([Digit(a), Digit(b), Digit(c)])
  {
    Regroup(a, b, c, 0);
  }

  lemma {:induction false} EncodeUndoesDecode(s: string)
    requires IsEncoding(s)
    ensures Unbase64(Padded(s)).Some? && Body(Unbase64(Padded(s)).value) == s
  {
    if |s| >= 4 {
      assert s == s[..4] + s[4..];
      EncodingConcat(s[..4], s[4..]);
      EncodeUndoesDecode(s[4..]);
      GroupOf(s);
      BodyConcat(First(Padded(s)), Second(Padded(s)), Third(Padded(s)), Unbase64(Padded(s[4..])).value);
    } else if |s| == 3 {
      TripleUndoes(s);
    } else if |s| == 2 {
      PairUndoes(s);
    }
  }

  lemma BodyConcat(x: Byte, y: Byte, z: Byte, rest: seq<Byte>)
    ensures Body([x, y, z] + rest) == AllToUrl(Quad(x, y, z)) + Body(rest)
  {
    assert ([x, y, z] + rest)[3..] == rest;
  }

  /** Main result: exactly these texts are the encoding of some bytes, and then of what they decode to. */
  lemma EncodingsAre(lenient: string -> seq<Byte>, s: string)
    ensures IsEncoding(s) <==> exists b: seq<Byte> :: UrlEncode(b) == s
    ensures IsEncoding(s) <==> UrlEncode(UrlDecode(lenient, s)) == s
  {
    if IsEncoding(s) {
      EncodeUndoesDecode(s);
      EncodeIsBody(UrlDecode(lenient, s));
    }
    if b: seq<Byte> :| UrlEncode(b) == s {
      EncodeIsBody(b);
      BodyIsEncoding(b);
    }
  }

  lemma ReEncoded(lenient: string -> seq<Byte>, s: string)
    requires IsEncoding(s)
    ensures UrlEncode(UrlDecode(lenient, s)) == s
  {
    EncodingsAre(lenient, s);
  }

  lemma NoDot(b: seq<Byte>)
    ensures '.' !in UrlEncode(b) && '=' !in UrlEncode(b)
  {
    EncodeIsBody(b);
    BodyShape(b);
  }

  // ---- tokens ----

  datatype Scope = Workspace | Session

  datatype Payload = Payload(instanceId: string, sessionId: string, scope: Scope, path: string, expiresAt: real)

  /** What parsing can yield: null, a value without a numeric `expiresAt`, or a payload. */
  datatype Json = Null | Undated | Object(payload: Payload)

  datatype Failure = Malformed | BadSignature | Expired | TypeError

  /** The primitives the token code calls. */
  datatype Runtime = Runtime(
    hmac: (string, string) -> seq<Byte>,
    stringify: Payload -> seq<Byte>,
    parse: seq<Byte> -> Option<Json>,
    lenient: string -> seq<Byte>)

  ghost predicate Lawful(rt: Runtime) {
    forall p :: rt.parse(rt.stringify(p)) == Some(Object(p))
  }

  function Sign(rt: Runtime, secret: string, p: Payload): string {
    var body := UrlEncode(rt.stringify(p));
    body + "." + UrlEncode(rt.hmac(secret, body))
  }

  function IndexOfDot(s: string): Option<nat> {
    if s == "" then None
    else if s[0] == '.' then Some(0)
    else
      var i := IndexOfDot(s[1..]);
      if i.Some? then Some(i.value + 1) else None
  }

  lemma {:induction false} DotAt(s: string)
    ensures IndexOfDot(s).None? <==> '.' !in s
    ensures IndexOfDot(s).Some? ==>
      IndexOfDot(s).value < |s| && s[IndexOfDot(s).value] == '.' && '.' !in s[..IndexOfDot(s).value]
  {
    if s == "" {
    } else {
      DotAt(s[1..]);
      assert s == [s[0]] + s[1..];
      if s[0] != '.' && IndexOfDot(s).Some? {
        assert s[..IndexOfDot(s).value] == [s[0]] + s[1..][..IndexOfDot(s).value - 1];
      }
    }
  }

  lemma {:induction false} DotBehind(body: string, sig: string)
    requires '.' !in body
    ensures IndexOfDot(body + "." + sig) == Some(|body|)
    ensures var t := body + "." + sig; t[..|body|] == body && t[|body| + 1..] == sig
  {
    var t := body + "." + sig;
    if body == "" {
    } else {
      assert t[1..] == body[1..] + "." + sig;
      DotBehind(body[1..], sig);
    }
  }

  function Dated(j: Json, now: real): Result<Payload, Failure> {
    match j
    case Null => Err(TypeError)
    case Undated => Err(Expired)
    case Object(p) => if p.expiresAt < now then Err(Expired) else Ok(p)
  }

  /** The verification behind the split at the first dot. */
  function Check(rt: Runtime, secret: string, body: string, sigEncoded: string, now: real): Result<Payload, Failure> {
    if UrlDecode(rt.lenient, sigEncoded) != rt.hmac(secret, body) then Err(BadSignature)
    else
      var parsed := rt.parse(UrlDecode(rt.lenient, body));
      if parsed.None? then Err(Malformed) else Dated(parsed.value, now)
  }

  function Verify(rt: Runtime, secret: string, token: string, now: real): Result<Payload, Failure> {
    var dot := IndexOfDot(token);
    if dot.None? || dot.value >= |token| then Err(Malformed)
    else Check(rt, secret, token[..dot.value], token[dot.value + 1..], now)
  }

  /** Main result: a signed token verifies to its payload exactly until it expires. */
  lemma {:induction false} SignedVerifies(rt: Runtime, secret: string, p: Payload, now: real, token: string)
    requires Lawful(rt) && token == Sign(rt, secret, p)
    ensures Verify(rt, secret, token, now) == if p.expiresAt >= now then Ok(p) else Err(Expired)
  {
    var body := UrlEncode(rt.stringify(p));
    var sig := UrlEncode(rt.hmac(secret, body));
    NoDot(rt.stringify(p));
    DotBehind(body, sig);
    DecodeUndoesEncode(rt.lenient, rt.hmac(secret, body));
    DecodeUndoesEncode(rt.lenient, rt.stringify(p));
  }

  /** A token under another secret, or with a body put in its place, is refused exactly when the signature differs. */
  lemma ForeignSignature(rt: Runtime, secret: string, body: string, mac: seq<Byte>, now: real)
    requires '.' !in body
    ensures Verify(rt, secret, body + "." + UrlEncode(mac), now) == Err(BadSignature) <==> mac != rt.hmac(secret, body)
  {
    DotBehind(body, UrlEncode(mac));
    DecodeUndoesEncode(rt.lenient, mac);
  }

  lemma CheckedIsSigned(rt: Runtime, secret: string, body: string, sig: string, now: real)
    requires Check(rt, secret, body, sig, now).Ok?
    ensures var p := Check(rt, secret, body, sig, now).value;
      p.expiresAt >= now && rt.parse(UrlDecode(rt.lenient, body)) == Some(Object(p))
    ensures UrlDecode(rt.lenient, sig) == rt.hmac(secret, body)
    ensures IsEncoding(sig) ==> sig == UrlEncode(rt.hmac(secret, body))
  {
    if IsEncoding(sig) {
      ReEncoded(rt.lenient, sig);
    }
  }

  /**
   * Every accepted token is a body, a dot and a text that decodes to the signature of the body; it
   * yields what the body says, before it expires; and a signature text that is an encoding is,
   * letter for letter, the one of the body.
   */
  lemma AcceptedIsSigned(rt: Runtime, secret: string, token: string, now: real) returns (body: string, sig: string)
    requires Verify(rt, secret, token, now).Ok?
    ensures token == body + "." + sig && '.' !in body
    ensures var p := Verify(rt, secret, token, now).value;
      p.expiresAt >= now && rt.parse(UrlDecode(rt.lenient, body)) == Some(Object(p))
    ensures UrlDecode(rt.lenient, sig) == rt.hmac(secret, body)
    ensures IsEncoding(sig) ==> sig == UrlEncode(rt.hmac(secret, body))
  {
    DotAt(token);
    var i := IndexOfDot(token).value;
    body, sig := token[..i], token[i + 1..];
    CheckedIsSigned(rt, secret, body, sig, now);
    assert token == body + "." + sig;
  }

  // ---- other texts of one signature ----

  lemma OtherPair(x: Byte) returns (t: string)
    ensures |t| == 2 && t != Body([x]) && Unbase64(Padded(t)) == Some([x])
  {
    var a, c := x / 4, x % 4 * 16 + 1;
    t := [ToUrl(Digit(a)), ToUrl(Digit(c))];
    UrlDigit(a);
    UrlDigit(c);
    UrlDigit(c - 1);
    DigitValue(c);
    DigitValue(c - 1);
    assert Padded(t) == [Digit(a), Digit(c), '=', '='];
    UnbasePair(a, c);
    assert Body([x])[1] == ToUrl(Digit(c - 1));
  }

  lemma UnbaseSpare(x: Byte, y: Byte)
    ensures Unbase64([Digit(x / 4), Digit(x % 4 * 16 + y / 16), Digit(y % 16 * 4 + 1), '=']) == Some([x, y])
  {
    SplitTwo(x, y);
    UnbaseTriple(x / 4, x % 4 * 16 + y / 16, y % 16 * 4 + 1);
  }

  lemma DigitInjective(v: Sextet, w: Sextet)
    requires ToUrl(Digit(v)) == ToUrl(Digit(w))
    ensures v == w
  {
    UrlDigit(v);
    UrlDigit(w);
    DigitValue(v);
    DigitValue(w);
  }

  lemma OtherTriple(x: Byte, y: Byte) returns (t: string)
    ensures |t| == 3 && t != Body([x, y]) && Unbase64(Padded(t)) == Some([x, y])
  {
    var a, b, c := x / 4, x % 4 * 16 + y / 16, y % 16 * 4 + 1;
    t := [ToUrl(Digit(a)), ToUrl(Digit(b)), ToUrl(Digit(c))];
    UrlDigit(a);
    UrlDigit(b);
    UrlDigit(c);
    assert Padded(t) == [Digit(a), Digit(b), Digit(c), '='];
    UnbaseSpare(x, y);
    assert Body([x, y])[2] == ToUrl(Digit(c - 1));
    if ToUrl(Digit(c)) == ToUrl(Digit(c - 1)) {
      DigitInjective(c, c - 1);
    }
  }

  lemma OtherLong(x: Byte, y: Byte, z: Byte, rest: seq<Byte>, t: string)
    requires t != Body(rest) && Unbase64(Padded(t)) == Some(rest)
    ensures var q := AllToUrl(Quad(x, y, z)); q + t != Body([x, y, z] + rest)
    ensures Unbase64(Padded(AllToUrl(Quad(x, y, z)) + t)) == Some([x, y, z] + rest)
  {
    var q := AllToUrl(Quad(x, y, z));
    QuadUrl(x, y, z);
    BodyConcat(x, y, z, rest);
    assert (q + t)[4..] == t && (q + Body(rest))[4..] == Body(rest);
    assert (q + t)[..4] == q;
    PaddedGroup(q + t);
    QuadUndoes(x, y, z, Padded(t));
  }

  /** Bytes whose number is no multiple of three have another text: the last digit has bits to spare. */
  lemma {:induction false} OtherText(b: seq<Byte>) returns (t: string)
    requires |b| % 3 != 0
    ensures t != Body(b) && Unbase64(Padded(t)) == Some(b)
    decreases |b|
  {
    if |b| == 1 {
      assert b == [b[0]];
      t := OtherPair(b[0]);
    } else if |b| == 2 {
      assert b == [b[0], b[1]];
      t := OtherTriple(b[0], b[1]);
    } else {
      assert b == [b[0], b[1], b[2]] + b[3..];
      var rest := OtherText(b[3..]);
      OtherLong(b[0], b[1], b[2], b[3..], rest);
      t := AllToUrl(Quad(b[0], b[1], b[2])) + rest;
    }
  }

  /**
   * Main result: unless a signature has a multiple of three bytes, a signed token is accepted with
   * a second signature text as well, one that is no encoding.
   */
  lemma SecondSignatureText(rt: Runtime, secret: string, p: Payload, now: real) returns (sig: string)
    requires Lawful(rt) && |rt.hmac(secret, UrlEncode(rt.stringify(p)))| % 3 != 0
    ensures !IsEncoding(sig)
    ensures Verify(rt, secret, UrlEncode(rt.stringify(p)) + "." + sig, now)
      == if p.expiresAt >= now then Ok(p) else Err(Expired)
  {
    var body := UrlEncode(rt.stringify(p));
    var mac := rt.hmac(secret, body);
    sig := OtherText(mac);
    EncodeIsBody(mac);
    EncodingsAre(rt.lenient, sig);
    NoDot(rt.stringify(p));
    DotBehind(body, sig);
    DecodeUndoesEncode(rt.lenient, rt.stringify(p));
  }
}
