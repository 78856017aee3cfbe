/** Base64 with the URL alphabet and without padding (RFC 4648 section 5; RFC 7515 section 2 and appendix C). */
module Base64Url {

  type Byte = n: nat | n < 256
  type Bytes = seq<Byte>
  type Sextet = n: nat | n < 64

  /** The alphabet of RFC 4648 section 4. */
  function Digit(n: Sextet): char {
    if n < 26 then 'A' + n as char
    else if n < 52 then 'a' + (n - 26) as char
    else if n < 62 then '0' + (n - 52) as char
    else if n == 62 then '+' else '/'
  }

  /** The value of a character of the alphabet, or 64 for any other character. */
  function DigitValue(c: char): nat {
    if 'A' <= c <= 'Z' then c as int - 'A' as int
    else if 'a' <= c <= 'z' then c as int - 'a' as int + 26
    else if '0' <= c <= '9' then c as int - '0' as int + 52
    else if c == '+' then 62
    else if c == '/' then 63
    else 64
  }

  /** QByteArray::toBase64: three bytes become four characters, a short last group is padded. */
  function ToBase64(data: Bytes): string {
    if data == [] then ""
    else if |data| == 1 then [Digit(data[0] / 4), Digit(data[0] % 4 * 16), '=', '=']
    else if |data| == 2 then [Digit(data[0] / 4), Digit(data[0] % 4 * 16 + data[1] / 16), Digit(data[1] % 16 * 4), '=']
    else [Digit(data[0] / 4), Digit(data[0] % 4 * 16 + data[1] / 16), Digit(data[1] % 16 * 4 + data[2] / 64), Digit(data[2] % 64)]
         + ToBase64(data[3..])
  }

  /** QByteArray::fromBase64: a buffer of `nbits` bits takes six bits per character of the alphabet and
      gives up eight at a time; every other character is skipped. */
  function FromBase64(text: string, buf: nat, nbits: nat): Bytes
    requires (nbits == 0 && buf == 0) || (nbits == 2 && buf < 4) || (nbits == 4 && buf < 16) || (nbits == 6 && buf < 64)
  {
    if text == "" then []
    else
      var d := DigitValue(text[0]);
      if d == 64 then FromBase64(text[1..], buf, nbits)
      else if nbits == 0 then FromBase64(text[1..], d, 6)
      else if nbits == 6 then [(buf * 64 + d) / 16] + FromBase64(text[1..], (buf * 64 + d) % 16, 4)
      else if nbits == 4 then [(buf * 64 + d) / 4] + FromBase64(text[1..], (buf * 64 + d) % 4, 2)
      else [buf * 64 + d] + FromBase64(text[1..], 0, 0)
  }

  /** QByteArray::replace of one character by another. */
  function Replace(text: string, from: char, to: char): (replaced: string)
    ensures |replaced| == |text| && forall i :: 0 <= i < |text| ==> replaced[i] == if text[i] == from then to else text[i]
  {
    seq(|text|, i requires 0 <= i < |text| => if text[i] == from then to else text[i])
  }

  // ---------------------------------------------------------------- the encoding, as the standard has it

  function UrlDigit(n: Sextet): char {
    if n == 62 then '-' else if n == 63 then '_' else Digit(n)
  }

  function UrlEncoded(data: Bytes): string {
    if data == [] then ""
    else if |data| == 1 then [UrlDigit(data[0] / 4), UrlDigit(data[0] % 4 * 16)]
    else if |data| == 2 then [UrlDigit(data[0] / 4), UrlDigit(data[0] % 4 * 16 + data[1] / 16), UrlDigit(data[1] % 16 * 4)]
    else [UrlDigit(data[0] / 4), UrlDigit(data[0] % 4 * 16 + data[1] / 16), UrlDigit(data[1] % 16 * 4 + data[2] / 64), UrlDigit(data[2] % 64)]
         + UrlEncoded(data[3..])
  }

  function Padding(n: nat): string {
    if n % 3 == 1 then "==" else if n % 3 == 2 then "=" else ""
  }

  // ---------------------------------------------------------------- encoder and decoder

  method Base64UrlEncode(data: Bytes) returns (encoded: string)
    ensures encoded == UrlEncoded(data)
  {
    encoded := ToBase64(data);
    encoded := Replace(encoded, '+', '-');
    encoded := Replace(encoded, '/', '_');
    ReplacedIsPadded(data);
    EncodedAlphabet(data);
    while |encoded| > 0 && encoded[|encoded| - 1] == '='
      invariant exists rest :: rest <= Padding(|data|) && encoded == UrlEncoded(data) + rest
    {
      ghost var rest :| rest <= Padding(|data|) && encoded == UrlEncoded(data) + rest;
      assert rest != "";
      encoded := encoded[..|encoded| - 1];
      assert encoded == UrlEncoded(data) + rest[..|rest| - 1];
    }
    ghost var rest :| rest <= Padding(|data|) && encoded == UrlEncoded(data) + rest;
    assert rest == "";
  }

  function Padded(text: string): string {
    var standard := Replace(Replace(text, '-', '+'), '_', '/');
    standard + (if |text| % 4 == 2 then "==" else if |text| % 4 == 3 then "=" else "")
  }

  function UrlDecoded(text: string): Bytes {
    FromBase64(Padded(text), 0, 0)
  }

  method Base64UrlDecode(data: string) returns (decoded: Bytes)
    ensures decoded == UrlDecoded(data)
  {
    var padded := data;
    padded := Replace(padded, '-', '+');
    padded := Replace(padded, '_', '/');
    var rem := |padded| % 4;
    if rem == 2 {
      padded := padded + "==";
    } else if rem == 3 {
      padded := padded + "=";
    }
    assert padded == Padded(data);
    decoded := FromBase64(padded, 0, 0);
  }

  // ---------------------------------------------------------------- what an encoding looks like

  predicate IsUrlDigit(c: char) {
    'A' <= c <= 'Z' || 'a' <= c <= 'z' || '0' <= c <= '9' || c == '-' || c == '_'
  }

  /** An encoding has only characters of the URL alphabet, so none of '.', '+', '/' and '='. */
  lemma {:induction false} EncodedAlphabet(data: Bytes)
    ensures forall i :: 0 <= i < |UrlEncoded(data)| ==> IsUrlDigit(UrlEncoded(data)[i])
    ensures '.' !in UrlEncoded(data) && '+' !in UrlEncoded(data) && '/' !in UrlEncoded(data) && '=' !in UrlEncoded(data)
  {
    if |data| >= 3 { EncodedAlphabet(data[3..]); }
  }

  /** A group of three bytes takes four characters, a last group of one or two takes two or three. */
  lemma {:induction false} EncodedLength(data: Bytes)
    ensures |UrlEncoded(data)| == 4 * (|data| / 3) + (if |data| % 3 == 0 then 0 else |data| % 3 + 1)
    ensures |UrlEncoded(data)| % 4 != 1
  {
    if |data| >= 3 { EncodedLength(data[3..]); }
  }

  function UrlSafe(text: string): string { Replace(Replace(text, '+', '-'), '/', '_') }

  lemma UrlSafeJoin(a: string, b: string)
    ensures UrlSafe(a + b) == UrlSafe(a) + UrlSafe(b)
  {
  }

  lemma UrlSafeFour(k: Sextet, l: Sextet, m: Sextet, n: Sextet)
    ensures UrlSafe([Digit(k), Digit(l), Digit(m), Digit(n)]) == [UrlDigit(k), UrlDigit(l), UrlDigit(m), UrlDigit(n)]
    ensures UrlSafe([Digit(k), Digit(l), Digit(m), '=']) == [UrlDigit(k), UrlDigit(l), UrlDigit(m), '=']
    ensures UrlSafe([Digit(k), Digit(l), '=', '=']) == [UrlDigit(k), UrlDigit(l), '=', '=']
  {
  }

  /** Standard Base64 with '+' and '/' replaced is the encoding, followed by the padding. */
  lemma {:induction false} ReplacedIsPadded(data: Bytes)
    ensures UrlSafe(ToBase64(data)) == UrlEncoded(data) + Padding(|data|)
  {
    hide Digit, UrlDigit, UrlSafe;
    if data == [] {
      UrlSafeEmpty();
    } else if |data| == 1 {
      UrlSafeFour(data[0] / 4, data[0] % 4 * 16, 0, 0);
    } else if |data| == 2 {
      UrlSafeFour(data[0] / 4, data[0] % 4 * 16 + data[1] / 16, data[1] % 16 * 4, 0);
    } else {
      ReplacedIsPadded(data[3..]);
      UrlSafeFour(data[0] / 4, data[0] % 4 * 16 + data[1] / 16, data[1] % 16 * 4 + data[2] / 64, data[2] % 64);
      assert |data[3..]| % 3 == |data| % 3;
      JoinGroup(ToBase64(data)[..4], ToBase64(data[3..]), UrlEncoded(data)[..4], UrlEncoded(data[3..]), Padding(|data|));
    }
  }

  lemma JoinGroup(group: string, rest: string, urlGroup: string, urlRest: string, padding: string)
    requires UrlSafe(group) == urlGroup && UrlSafe(rest) == urlRest + padding
    ensures UrlSafe(group + rest) == urlGroup + urlRest + padding
  {
    UrlSafeJoin(group, rest);
    hide UrlSafe;
  }

  lemma UrlSafeEmpty()
    ensures UrlSafe("") == ""
  {
  }

  // ---------------------------------------------------------------- the round trip

  /** What one character of the alphabet adds, when the buffer holds `nbits` bits. */
  lemma OneDigit(n: Sextet, rest: string, buf: nat, nbits: nat)
    requires (nbits == 0 && buf == 0) || (nbits == 2 && buf < 4) || (nbits == 4 && buf < 16) || (nbits == 6 && buf < 64)
    ensures FromBase64([Digit(n)] + rest, buf, nbits) ==
            if nbits == 0 then FromBase64(rest, n, 6)
            else if nbits == 6 then [(buf * 64 + n) / 16] + FromBase64(rest, (buf * 64 + n) % 16, 4)
            else if nbits == 4 then [(buf * 64 + n) / 4] + FromBase64(rest, (buf * 64 + n) % 4, 2)
            else [buf * 64 + n] + FromBase64(rest, 0, 0)
  {
  }

  lemma SkipEquals(rest: string, buf: nat, nbits: nat)
    requires (nbits == 0 && buf == 0) || (nbits == 2 && buf < 4) || (nbits == 4 && buf < 16)
    ensures FromBase64("=" + rest, buf, nbits) == FromBase64(rest, buf, nbits)
  {
  }

  lemma NothingLeft(buf: nat, nbits: nat)
    requires (nbits == 0 && buf == 0) || (nbits == 2 && buf < 4) || (nbits == 4 && buf < 16)
    ensures FromBase64("", buf, nbits) == []
  {
  }

  lemma DecodeTwo(a: Byte, low: nat, rest: string)
    requires low < 16
    ensures FromBase64([Digit(a / 4), Digit(a % 4 * 16 + low)] + rest, 0, 0) == [a] + FromBase64(rest, low, 4)
  {
    hide Digit, DigitValue, FromBase64;
    var d := a % 4 * 16 + low;
    assert [Digit(a / 4), Digit(d)] + rest == [Digit(a / 4)] + ([Digit(d)] + rest);
    OneDigit(a / 4, [Digit(d)] + rest, 0, 0);
    OneDigit(d, rest, a / 4, 6);
    assert a / 4 * 64 + d == a * 16 + low;
  }

  lemma DecodeThree(a: Byte, b: Byte, low: nat, rest: string)
    requires low < 4
    ensures FromBase64([Digit(a / 4), Digit(a % 4 * 16 + b / 16), Digit(b % 16 * 4 + low)] + rest, 0, 0)
            == [a, b] + FromBase64(rest, low, 2)
  {
    hide Digit, DigitValue, FromBase64;
    var d := b % 16 * 4 + low;
    assert [Digit(a / 4), Digit(a % 4 * 16 + b / 16), Digit(d)] + rest == [Digit(a / 4), Digit(a % 4 * 16 + b / 16)] + ([Digit(d)] + rest);
    DecodeTwo(a, b / 16, [Digit(d)] + rest);
    OneDigit(d, rest, b / 16, 4);
    assert b / 16 * 64 + d == b * 4 + low;
    assert [a] + ([b] + FromBase64(rest, low, 2)) == [a, b] + FromBase64(rest, low, 2);
  }

  /** Four characters give back the three bytes they were made of. */
  lemma DecodeFour(a: Byte, b: Byte, c: Byte, rest: string)
    ensures FromBase64([Digit(a / 4), Digit(a % 4 * 16 + b / 16), Digit(b % 16 * 4 + c / 64), Digit(c % 64)] + rest, 0, 0)
            == [a, b, c] + FromBase64(rest, 0, 0)
  {
    hide Digit, DigitValue, FromBase64;
    var three := [Digit(a / 4), Digit(a % 4 * 16 + b / 16), Digit(b % 16 * 4 + c / 64)];
    assert [Digit(a / 4), Digit(a % 4 * 16 + b / 16), Digit(b % 16 * 4 + c / 64), Digit(c % 64)] + rest == three + ([Digit(c % 64)] + rest);
    DecodeThree(a, b, c / 64, [Digit(c % 64)] + rest);
    OneDigit(c % 64, rest, c / 64, 2);
    assert c / 64 * 64 + c % 64 == c;
    assert [a, b] + ([c] + FromBase64(rest, 0, 0)) == [a, b, c] + FromBase64(rest, 0, 0);
  }

  /** The standard encoding decodes to its input. */
  lemma {:induction false} FromToBase64(data: Bytes)
    ensures FromBase64(ToBase64(data), 0, 0) == data
  {
    NothingLeft(0, 0);
    NothingLeft(0, 2);
    NothingLeft(0, 4);
    hide Digit, FromBase64;
    if |data| == 1 {
      assert ToBase64(data) == [Digit(data[0] / 4), Digit(data[0] % 4 * 16)] + "==";
      DecodeTwo(data[0], 0, "==");
      SkipEquals("=", 0, 4);
      SkipEquals("", 0, 4);
    } else if |data| == 2 {
      assert ToBase64(data) == [Digit(data[0] / 4), Digit(data[0] % 4 * 16 + data[1] / 16), Digit(data[1] % 16 * 4)] + "=";
      DecodeThree(data[0], data[1], 0, "=");
      SkipEquals("", 0, 2);
    } else if |data| >= 3 {
      FromToBase64(data[3..]);
      DecodeFour(data[0], data[1], data[2], ToBase64(data[3..]));
    }
  }

  lemma Restored(standard: string, url: string, padding: string)
    requires UrlSafe(standard) == url + padding && '-' !in standard && '_' !in standard
    requires forall i :: 0 <= i < |padding| ==> padding[i] == '='
    ensures Replace(Replace(url, '-', '+'), '_', '/') + padding == standard
  {
    forall i | 0 <= i < |standard| ensures (Replace(Replace(url, '-', '+'), '_', '/') + padding)[i] == standard[i] {
      assert UrlSafe(standard)[i] == if i < |url| then url[i] else padding[i - |url|];
    }
  }

  /** Decoding restores the standard alphabet and the padding. */
  lemma PaddedIsStandard(data: Bytes)
    ensures Padded(UrlEncoded(data)) == ToBase64(data)
  {
    ReplacedIsPadded(data);
    EncodedLength(data);
    Base64Alphabet(data);
    hide UrlEncoded, ToBase64, UrlSafe;
    Restored(ToBase64(data), UrlEncoded(data), Padding(|data|));
  }

  lemma {:induction false} Base64Alphabet(data: Bytes)
    ensures '-' !in ToBase64(data) && '_' !in ToBase64(data)
  {
    if |data| >= 3 { Base64Alphabet(data[3..]); }
  }

  /** Decoding an encoding gives the bytes back, for every byte string. */
  lemma RoundTrip(data: Bytes)
    ensures UrlDecoded(UrlEncoded(data)) == data
  {
    PaddedIsStandard(data);
    FromToBase64(data);
  }

  // ---------------------------------------------------------------- group by group

  /** `c` is the character of the URL alphabet for `n`, by its ASCII code. */
  predicate Denotes(c: char, n: nat) {
    if n < 26 then c as int == 65 + n
    else if n < 52 then c as int == 97 + n - 26
    else if n < 62 then c as int == 48 + n - 52
    else c == if n == 62 then '-' else '_'
  }

  function ByteAt(data: Bytes, k: nat): Byte { if k < |data| then data[k] else 0 }

  /** Three bytes as one number, missing ones counting as zero. */
  function Group24(data: Bytes, g: nat): nat {
    65536 * ByteAt(data, 3 * g) + 256 * ByteAt(data, 3 * g + 1) + ByteAt(data, 3 * g + 2)
  }

  /** The value of the character at place `k` of four. */
  function Weight(k: nat): (w: nat)
    requires k < 4
    ensures w > 0
  {
    if k == 0 then 262144 else if k == 1 then 4096 else if k == 2 then 64 else 1
  }

  lemma By64(n: nat, q: nat, r: nat)
    requires n == 64 * q + r && r < 64
    ensures n / 64 == q && n % 64 == r
  {
  }

  lemma By4096(n: nat, q: nat, r: nat)
    requires n == 4096 * q + r && r < 4096
    ensures n / 4096 == q
  {
  }

  lemma FirstSextet(a: Byte, b: Byte, c: Byte)
    ensures (65536 * a + 256 * b + c) / 262144 % 64 == a / 4
  {
  }

  lemma SecondSextet(a: Byte, b: Byte, c: Byte)
    ensures (65536 * a + 256 * b + c) / 4096 % 64 == a % 4 * 16 + b / 16
  {
    By4096(65536 * a + 256 * b + c, 16 * a + b / 16, 256 * (b % 16) + c);
    By64(16 * a + b / 16, a / 4, a % 4 * 16 + b / 16);
  }

  lemma ThirdSextet(a: Byte, b: Byte, c: Byte)
    ensures (65536 * a + 256 * b + c) / 64 % 64 == b % 16 * 4 + c / 64
  {
    By64(65536 * a + 256 * b + c, 1024 * a + 4 * b + c / 64, c % 64);
    By64(1024 * a + 4 * b + c / 64, 16 * a + b / 16, b % 16 * 4 + c / 64);
  }

  lemma LastSextet(a: Byte, b: Byte, c: Byte)
    ensures (65536 * a + 256 * b + c) / 1 % 64 == c % 64
  {
  }

  lemma DigitDenotes(n: Sextet)
    ensures Denotes(UrlDigit(n), n)
  {
  }

  lemma FirstGroup(data: Bytes, k: nat)
    requires k < 4 && k < |UrlEncoded(data)|
    ensures Group24(data, 0) / Weight(k) % 64 < 64 && UrlEncoded(data)[k] == UrlDigit(Group24(data, 0) / Weight(k) % 64)
  {
    hide UrlDigit;
    var a: nat, b: nat, c: nat := data[0], ByteAt(data, 1), ByteAt(data, 2);
    FirstSextet(a, b, c);
    SecondSextet(a, b, c);
    ThirdSextet(a, b, c);
    LastSextet(a, b, c);
    assert Group24(data, 0) == 65536 * a + 256 * b + c;
    hide Group24;
  }

  lemma NextGroup(data: Bytes, g: nat, k: nat)
    requires g > 0 && k < 4 && 4 * g + k < |UrlEncoded(data)|
    ensures |data| >= 3 && 4 * (g - 1) + k < |UrlEncoded(data[3..])|
    ensures UrlEncoded(data)[4 * g + k] == UrlEncoded(data[3..])[4 * (g - 1) + k]
  {
    hide UrlDigit;
    assert |data| >= 3 by { EncodedLength(data); }
    var four := UrlEncoded(data)[..4];
    assert UrlEncoded(data) == four + UrlEncoded(data[3..]);
    hide UrlEncoded;
  }

  lemma SameGroup(data: Bytes, g: nat)
    requires |data| >= 3 && g > 0
    ensures Group24(data, g) == Group24(data[3..], g - 1)
  {
  }

  /** Each group of three bytes, read as a number of 24 bits, is written with four characters of the alphabet, most
      significant first; of a last group of one or two bytes only the first two or three are written. */
  lemma {:induction false} EncodedGroup(data: Bytes, g: nat, k: nat)
    requires k < 4 && 4 * g + k < |UrlEncoded(data)|
    ensures Denotes(UrlEncoded(data)[4 * g + k], Group24(data, g) / Weight(k) % 64)
    decreases g
  {
    hide UrlEncoded, UrlDigit, Denotes, Group24, Weight;
    if g > 0 {
      NextGroup(data, g, k);
      SameGroup(data, g);
      EncodedGroup(data[3..], g - 1, k);
    } else {
      FirstGroup(data, k);
      DigitDenotes(Group24(data, 0) / Weight(k) % 64);
    }
  }
}
