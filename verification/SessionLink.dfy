/** The session link parameter: a two-field JSON text in unpadded Base64URL (section 5 of RFC 4648). */
module SessionLink {
  import opened Decimal
  import opened EventTable

  // ---------------------------------------------------------------- Base64

  /** The standard alphabet (section 4 of RFC 4648). */
  function DigitOf(n: nat): char
    requires n < 64
  {
    if n < 26 then ('A' as int + n) as char
    else if n < 52 then ('a' as int + n - 26) as char
    else if n < 62 then ('0' as int + n - 52) as char
    else if n == 62 then '+' else '/'
  }

  predicate IsBase64Digit(c: char) {
    'A' <= c <= 'Z' || 'a' <= c <= 'z' || '0' <= c <= '9' || c == '+' || c == '/'
  }

  function ValueOf(c: char): (n: nat)
    requires IsBase64Digit(c)
    ensures n < 64
  {
    if 'A' <= c <= 'Z' then c as int - 'A' as int
    else if 'a' <= c <= 'z' then c as int - 'a' as int + 26
    else if '0' <= c <= '9' then c as int - '0' as int + 52
    else if c == '+' then 62 else 63
  }

  lemma DigitValue(n: nat)
    requires n < 64
    ensures IsBase64Digit(DigitOf(n)) && ValueOf(DigitOf(n)) == n
  {
  }

  /** Strings that `btoa` accepts. */
  predicate IsLatin1(s: string) {
    forall i | 0 <= i < |s| :: s[i] as int < 256
  }

  predicate AllBase64(s: string) {
    forall i | 0 <= i < |s| :: IsBase64Digit(s[i])
  }

  predicate AllBelow(x: seq<nat>, n: nat) {
    forall i | 0 <= i < |x| :: x[i] < n
  }

  /** Three bytes in four groups of six bits, and back. */
  function Quad(a: nat, b: nat, c: nat): seq<nat> {
    [a / 4, a % 4 * 16 + b / 16, b % 16 * 4 + c / 64, c % 64]
  }

  function Triple(w: nat, x: nat, y: nat, z: nat): seq<nat> {
    [w * 4 + x / 16, x % 16 * 16 + y / 4, y % 4 * 64 + z]
  }

  lemma FirstByte(a: nat, b: nat)
    requires a < 256 && b < 256
    ensures a / 4 < 64 && a / 4 * 4 + (a % 4 * 16 + b / 16) / 16 == a
  {
    assert (a % 4 * 16 + b / 16) / 16 == a % 4;
  }

  lemma SecondByte(a: nat, b: nat, c: nat)
    requires a < 256 && b < 256 && c < 256
    ensures a % 4 * 16 + b / 16 < 64 && (a % 4 * 16 + b / 16) % 16 * 16 + (b % 16 * 4 + c / 64) / 4 == b
  {
    assert (a % 4 * 16 + b / 16) % 16 == b / 16;
    assert (b % 16 * 4 + c / 64) / 4 == b % 16;
  }

  lemma ThirdByte(b: nat, c: nat)
    requires b < 256 && c < 256
    ensures b % 16 * 4 + c / 64 < 64 && (b % 16 * 4 + c / 64) % 4 * 64 + c % 64 == c
  {
    assert (b % 16 * 4 + c / 64) % 4 == c / 64;
  }

  lemma QuadTriple(a: nat, b: nat, c: nat)
    requires a < 256 && b < 256 && c < 256
    ensures AllBelow(Quad(a, b, c), 64)
    ensures var q := Quad(a, b, c); Triple(q[0], q[1], q[2], q[3]) == [a, b, c]
  {
    FirstByte(a, b);
    SecondByte(a, b, c);
    ThirdByte(b, c);
  }

  lemma TripleBelow(w: nat, x: nat, y: nat, z: nat)
    requires w < 64 && x < 64 && y < 64 && z < 64
    ensures AllBelow(Triple(w, x, y, z), 256)
  {
  }

  /** The bits of the bytes in groups of six, the last one filled with zeros. */
  function ToSextets(bytes: seq<nat>): (r: seq<nat>)
    requires AllBelow(bytes, 256)
    ensures AllBelow(r, 64)
  {
    if bytes == [] then []
    else if |bytes| == 1 then
      QuadTriple(bytes[0], 0, 0);
      Quad(bytes[0], 0, 0)[..2]
    else if |bytes| == 2 then
      QuadTriple(bytes[0], bytes[1], 0);
      Quad(bytes[0], bytes[1], 0)[..3]
    else
      QuadTriple(bytes[0], bytes[1], bytes[2]);
      Quad(bytes[0], bytes[1], bytes[2]) + ToSextets(bytes[3..])
  }

  /** The bytes of the bits; bits left over are dropped. */
  function FromSextets(x: seq<nat>): (r: seq<nat>)
    requires AllBelow(x, 64) && |x| % 4 != 1
    ensures AllBelow(r, 256)
  {
    if x == [] then []
    else if |x| == 2 then
      TripleBelow(x[0], x[1], 0, 0);
      Triple(x[0], x[1], 0, 0)[..1]
    else if |x| == 3 then
      TripleBelow(x[0], x[1], x[2], 0);
      Triple(x[0], x[1], x[2], 0)[..2]
    else
      TripleBelow(x[0], x[1], x[2], x[3]);
      Triple(x[0], x[1], x[2], x[3]) + FromSextets(x[4..])
  }

  lemma {:induction false} SextetCount(bytes: seq<nat>)
    requires AllBelow(bytes, 256)
    ensures |ToSextets(bytes)| == |bytes| / 3 * 4 + (if |bytes| % 3 == 0 then 0 else |bytes| % 3 + 1)
    ensures |ToSextets(bytes)| % 4 != 1
  {
    if |bytes| >= 3 {
      SextetCount(bytes[3..]);
    }
  }

  /** The bits come back at all three residues of the length. */
  lemma {:induction false} SextetsRoundTrip(bytes: seq<nat>)
    requires AllBelow(bytes, 256)
    ensures |ToSextets(bytes)| % 4 != 1 && FromSextets(ToSextets(bytes)) == bytes
  {
    SextetCount(bytes);
    if |bytes| == 1 {
      QuadTriple(bytes[0], 0, 0);
      assert bytes == [bytes[0]];
    } else if |bytes| == 2 {
      QuadTriple(bytes[0], bytes[1], 0);
      assert bytes == [bytes[0], bytes[1]];
    } else if |bytes| >= 3 {
      QuadTriple(bytes[0], bytes[1], bytes[2]);
      SextetsRoundTrip(bytes[3..]);
      assert ToSextets(bytes)[4..] == ToSextets(bytes[3..]);
      assert bytes == [bytes[0], bytes[1], bytes[2]] + bytes[3..];
    }
  }

  function ToDigits(x: seq<nat>): (digits: string)
    requires AllBelow(x, 64)
    ensures |digits| == |x|
  {
    seq(|x|, i requires 0 <= i < |x| => DigitOf(x[i]))
  }

  function ToValues(digits: string): (x: seq<nat>)
    requires AllBase64(digits)
    ensures |x| == |digits| && AllBelow(x, 64)
  {
    seq(|digits|, i requires 0 <= i < |digits| => ValueOf(digits[i]))
  }

  lemma DigitsRoundTrip(x: seq<nat>)
    requires AllBelow(x, 64)
    ensures AllBase64(ToDigits(x)) && ToValues(ToDigits(x)) == x
  {
    forall i | 0 <= i < |x| ensures IsBase64Digit(ToDigits(x)[i]) && ValueOf(ToDigits(x)[i]) == x[i] {
      DigitValue(x[i]);
    }
  }

  function ToBytes(s: string): (bytes: seq<nat>)
    requires IsLatin1(s)
    ensures |bytes| == |s| && AllBelow(bytes, 256)
  {
    seq(|s|, i requires 0 <= i < |s| => s[i] as int)
  }

  function FromBytes(bytes: seq<nat>): (s: string)
    requires AllBelow(bytes, 256)
    ensures |s| == |bytes|
  {
    seq(|bytes|, i requires 0 <= i < |bytes| => bytes[i] as char)
  }

  /** The digits of a text, without padding. */
  function Digits(s: string): string
    requires IsLatin1(s)
  {
    ToDigits(ToSextets(ToBytes(s)))
  }

  function Padding(length: nat): string {
    if length % 3 == 1 then "==" else if length % 3 == 2 then "=" else ""
  }

  function Btoa(s: string): string
    requires IsLatin1(s)
  {
    Digits(s) + Padding(|s|)
  }

  predicate IsSpace(c: char) {
    c == '\t' || c == '\n' || c == '\r' || c == ' ' || c as int == 12
  }

  function WithoutSpaces(s: string): string {
    if s == [] then "" else (if IsSpace(s[0]) then "" else [s[0]]) + WithoutSpaces(s[1..])
  }

  /** One or two padding characters, when the length is a multiple of four. */
  function WithoutPadding(s: string): string {
    if |s| == 0 || |s| % 4 != 0 || s[|s| - 1] != '=' then s
    else if s[|s| - 2] == '=' then s[..|s| - 2] else s[..|s| - 1]
  }

  /** The forgiving decoder behind `atob`. */
  function Atob(s: string): Option<string> {
    var digits := WithoutPadding(WithoutSpaces(s));
    if |digits| % 4 == 1 || !AllBase64(digits) then None else Some(FromBytes(FromSextets(ToValues(digits))))
  }

  lemma {:induction false} NoSpaces(s: string)
    requires forall i | 0 <= i < |s| :: !IsSpace(s[i])
    ensures WithoutSpaces(s) == s
  {
    if s != [] { NoSpaces(s[1..]); }
  }

  lemma DigitsShape(s: string)
    requires IsLatin1(s)
    ensures AllBase64(Digits(s)) && |Digits(s)| % 4 != 1
    ensures |Digits(s)| == |s| / 3 * 4 + (if |s| % 3 == 0 then 0 else |s| % 3 + 1)
    ensures |s| % 3 == 1 ==> |Digits(s)| % 4 == 2
    ensures |s| % 3 == 2 ==> |Digits(s)| % 4 == 3
  {
    SextetCount(ToBytes(s));
    DigitsRoundTrip(ToSextets(ToBytes(s)));
  }

  lemma AtobOfDigits(s: string)
    requires IsLatin1(s)
    ensures AllBase64(Digits(s)) && |Digits(s)| % 4 != 1
    ensures FromBytes(FromSextets(ToValues(Digits(s)))) == s
  {
    DigitsShape(s);
    DigitsRoundTrip(ToSextets(ToBytes(s)));
    SextetsRoundTrip(ToBytes(s));
  }

  lemma {:induction false} NoSpacesBefore(digits: string, pads: string)
    requires AllBase64(digits)
    ensures WithoutSpaces(digits + pads) == digits + WithoutSpaces(pads)
  {
    if digits == [] {
      assert digits + pads == pads;
    } else {
      assert IsBase64Digit(digits[0]);
      assert (digits + pads)[1..] == digits[1..] + pads;
      NoSpacesBefore(digits[1..], pads);
    }
  }

  lemma PadsComeOff(text: string)
    requires text != [] ==> text[|text| - 1] != '='
    ensures |text| % 4 != 1 ==> WithoutPadding(text) == text
    ensures |text| % 4 == 3 ==> WithoutPadding(text + "=") == text
    ensures |text| % 4 == 2 ==> WithoutPadding(text + "==") == text
  {
    assert (text + "=")[..|text|] == text;
    assert (text + "==")[..|text|] == text;
    if |text| % 4 == 3 { assert (text + "=")[|text| - 1] == text[|text| - 1]; }
  }

  lemma Bare(digits: string, length: nat)
    requires AllBase64(digits) && |digits| % 4 != 1
    requires length % 3 == 1 ==> |digits| % 4 == 2
    requires length % 3 == 2 ==> |digits| % 4 == 3
    ensures WithoutPadding(WithoutSpaces(digits + Padding(length))) == digits
  {
    if digits != [] { assert IsBase64Digit(digits[|digits| - 1]); }
    PadsComeOff(digits);
    NoSpaces(Padding(length));
    NoSpacesBefore(digits, Padding(length));
    assert digits + "" == digits;
  }

  /** `atob` undoes `btoa`, with its padding or without. */
  lemma Base64RoundTrip(s: string)
    requires IsLatin1(s)
    ensures Atob(Btoa(s)) == Some(s)
    ensures Atob(Digits(s)) == Some(s)
  {
    var digits := Digits(s);
    DigitsShape(s);
    AtobOfDigits(s);
    Bare(digits, |s|);
    Bare(digits, 0);
    assert digits + Padding(0) == digits;
  }

  // ---------------------------------------------------------------- the payload's text

  datatype Payload = Payload(s: string, t: int)

  predicate IsHex(c: char) {
    '0' <= c <= '9' || 'a' <= c <= 'f' || 'A' <= c <= 'F'
  }

  /** Groups of 8, 4, 4, 4 and 12 hexadecimal digits of either case. */
  predicate IsUuid(s: string) {
    |s| == 36 && forall i | 0 <= i < 36 :: if i == 8 || i == 13 || i == 18 || i == 23 then s[i] == '-' else IsHex(s[i])
  }

  /** Strings that `JSON.stringify` prints as they are and `btoa` accepts. */
  predicate IsPlain(s: string) {
    forall i | 0 <= i < |s| :: 32 <= s[i] as int < 127 && s[i] != '"' && s[i] != '\\'
  }

  const JSON_START := "{\"s\":\""
  const JSON_MIDDLE := "\",\"t\":"

  function Stringify(p: Payload): string {
    JSON_START + (p.s + (JSON_MIDDLE + (IntText(p.t) + "}")))
  }

  function QuoteAt(s: string): (i: nat)
    ensures i <= |s| && (i < |s| ==> s[i] == '"')
  {
    if s == [] || s[0] == '"' then 0 else 1 + QuoteAt(s[1..])
  }

  /** An integer as JSON writes it: no leading zeros. */
  function ReadInt(s: string): Option<int> {
    if IsIntText(s) && IntText(IntValue(s)) == s then Some(IntValue(s)) else None
  }

  function After(prefix: string, s: string): Option<string> {
    if prefix <= s then Some(s[|prefix|..]) else None
  }

  /** The number before the closing brace. */
  function ReadTime(s: string): Option<int> {
    if s == [] || s[|s| - 1] != '}' then None else ReadInt(s[..|s| - 1])
  }

  /** Reads a text of the two fields in this order. */
  function ReadPayload(json: string): Option<Payload> {
    var text := After(JSON_START, json);
    if text.None? then None
    else
      var end := QuoteAt(text.value);
      var rest := After(JSON_MIDDLE, text.value[end..]);
      if rest.None? || ReadTime(rest.value).None? then None
      else Some(Payload(text.value[..end], ReadTime(rest.value).value))
  }

  lemma AfterPrefix(prefix: string, s: string)
    ensures After(prefix, prefix + s) == Some(s)
  {
  }

  lemma {:induction false} QuoteAfter(s: string, rest: string)
    requires (forall i | 0 <= i < |s| :: s[i] != '"') && rest != [] && rest[0] == '"'
    ensures QuoteAt(s + rest) == |s|
  {
    if s == [] {
      assert s + rest == rest;
    } else {
      assert (s + rest)[1..] == s[1..] + rest;
      QuoteAfter(s[1..], rest);
    }
  }

  lemma JsonRoundTrip(p: Payload)
    requires IsPlain(p.s)
    ensures ReadPayload(Stringify(p)) == Some(p)
  {
    var time := IntText(p.t) + "}";
    var rest := JSON_MIDDLE + time;
    AfterPrefix(JSON_START, p.s + rest);
    QuoteAfter(p.s, rest);
    assert (p.s + rest)[|p.s|..] == rest && (p.s + rest)[..|p.s|] == p.s;
    AfterPrefix(JSON_MIDDLE, time);
    assert time[..|time| - 1] == IntText(p.t);
    IntValueOfText(p.t);
  }

  lemma StringifyIsLatin1(p: Payload)
    requires IsPlain(p.s)
    ensures IsLatin1(Stringify(p))
  {
    assert forall i | 0 <= i < |IntText(p.t)| :: IntText(p.t)[i] as int < 256;
  }

  // ---------------------------------------------------------------- encode and decode

  function ToUrl(c: char): char {
    if c == '+' then '-' else if c == '/' then '_' else c
  }

  function FromUrl(c: char): char {
    if c == '-' then '+' else if c == '_' then '/' else c
  }

  function AllToUrl(s: string): (r: string)
    ensures |r| == |s| && forall i | 0 <= i < |s| :: r[i] == ToUrl(s[i])
  {
    seq(|s|, i requires 0 <= i < |s| => ToUrl(s[i]))
  }

  function AllFromUrl(s: string): (r: string)
    ensures |r| == |s| && forall i | 0 <= i < |s| :: r[i] == FromUrl(s[i])
  {
    seq(|s|, i requires 0 <= i < |s| => FromUrl(s[i]))
  }

  /** `replace(/=+$/, '')`. */
  function StripPadding(s: string): string {
    if s != [] && s[|s| - 1] == '=' then StripPadding(s[..|s| - 1]) else s
  }

  function Encode(p: Payload): string
    requires IsLatin1(Stringify(p))
  {
    StripPadding(AllToUrl(Btoa(Stringify(p))))
  }

  function Decode(encoded: string): Option<Payload> {
    var json := Atob(AllFromUrl(encoded));
    if json.None? then None
    else
      var payload := ReadPayload(json.value);
      if payload.Some? && IsUuid(payload.value.s) then payload else None
  }

  predicate IsUrlSafe(c: char) {
    'A' <= c <= 'Z' || 'a' <= c <= 'z' || '0' <= c <= '9' || c == '-' || c == '_'
  }

  lemma StripOne(text: string)
    ensures StripPadding(text + "=") == StripPadding(text)
  {
    assert (text + "=")[..|text|] == text;
  }

  lemma StripPads(text: string, length: nat)
    requires text == [] || text[|text| - 1] != '='
    ensures StripPadding(text + Padding(length)) == text
  {
    StripOne(text);
    StripOne(text + "=");
    assert text + "=" + "=" == text + "==" && text + "" == text;
  }

  /** Encoding yields the digits of the JSON text in the URL alphabet, and no padding. */
  lemma EncodeIsDigits(p: Payload)
    requires IsLatin1(Stringify(p))
    ensures Encode(p) == AllToUrl(Digits(Stringify(p)))
    ensures AllBase64(Digits(Stringify(p)))
  {
    var json := Stringify(p);
    var digits, pads := Digits(json), Padding(|json|);
    DigitsShape(json);
    assert AllToUrl(digits + pads) == AllToUrl(digits) + pads;
    if digits != [] { assert IsBase64Digit(digits[|digits| - 1]); }
    StripPads(AllToUrl(digits), |json|);
  }

  /** The parameter consists of characters that are safe in a URL, with no padding. */
  lemma EncodeIsUrlSafe(p: Payload, i: nat)
    requires IsLatin1(Stringify(p)) && i < |Encode(p)|
    ensures IsUrlSafe(Encode(p)[i]) && |Encode(p)| % 4 != 1
  {
    EncodeIsDigits(p);
    DigitsShape(Stringify(p));
    assert IsBase64Digit(Digits(Stringify(p))[i]);
  }

  /** Link round trip: for every plain session id and every integer time, decoding undoes encoding exactly when the
      id is a UUID, and rejects the text otherwise. */
  lemma LinkRoundTrip(p: Payload)
    requires IsPlain(p.s)
    ensures IsLatin1(Stringify(p))
    ensures Decode(Encode(p)) == if IsUuid(p.s) then Some(p) else None
  {
    StringifyIsLatin1(p);
    EncodeIsDigits(p);
    var digits := Digits(Stringify(p));
    assert AllFromUrl(AllToUrl(digits)) == digits by {
      assert forall i | 0 <= i < |digits| :: IsBase64Digit(digits[i]);
    }
    Base64RoundTrip(Stringify(p));
    JsonRoundTrip(p);
  }

  /** A UUID is plain, so its link always comes back. */
  lemma UuidLink(p: Payload)
    requires IsUuid(p.s)
    ensures IsLatin1(Stringify(p)) && Decode(Encode(p)) == Some(p)
  {
    assert IsPlain(p.s);
    LinkRoundTrip(p);
  }

  // ---------------------------------------------------------------- reading the parameter

  const CLOCK_SKEW_TOLERANCE := 60

  /** `readParam` for the value of the parameter, if the URL has one, at a time in seconds. */
  function ReadParam(encoded: Option<string>, expiry: int, now: int): (r: Option<Payload>)
    ensures r.Some? ==> IsUuid(r.value.s) && now - expiry <= r.value.t <= now + CLOCK_SKEW_TOLERANCE
  {
    if encoded.None? || encoded.value == "" then None
    else
      var payload := Decode(encoded.value);
      if payload.None? then None
      else
        var age := now - payload.value.t;
        if age > expiry then None
        else if payload.value.t > now + CLOCK_SKEW_TOLERANCE then None
        else payload
  }

  /** A link that was made for a session brings it over exactly within its window: not older than the expiry, and
      not more than a minute ahead of the reader's clock. */
  lemma LinkWindow(p: Payload, expiry: int, now: int)
    requires IsUuid(p.s)
    ensures IsLatin1(Stringify(p))
    ensures ReadParam(Some(Encode(p)), expiry, now) == if now - expiry <= p.t <= now + CLOCK_SKEW_TOLERANCE then Some(p) else None
  {
    UuidLink(p);
    EncodeIsDigits(p);
    DigitsShape(Stringify(p));
    assert |Stringify(p)| > 3;
  }

  /** Different sessions or times have different links. */
  lemma LinksDiffer(p: Payload, q: Payload)
    requires IsUuid(p.s) && IsUuid(q.s) && p != q
    ensures IsLatin1(Stringify(p)) && IsLatin1(Stringify(q)) && Encode(p) != Encode(q)
  {
    UuidLink(p);
    UuidLink(q);
  }
}
