/** Tokens signed with HMAC-SHA256. The digest and the JSON text are library code and appear as functions. */
module JsonWebToken {
  import opened Packets
  import opened Base64Url

  const CLOCK_SKEW_TOLERANCE_SECONDS := 60

  /** `hmac(key, data)`, and the compact JSON text of an object with its parser. */
  datatype Library = Library(hmac: (Bytes, Bytes) -> Bytes, toJson: map<string, Json> -> Bytes, fromJson: Bytes -> Document)

  datatype VerifyResult = VerifyResult(valid: bool, userId: string, errorMessage: string)

  function Invalid(reason: string): VerifyResult { VerifyResult(false, "", reason) }

  function Claims(userId: string, iat: int, exp: int): map<string, Json> {
    map["sub" := JString(userId), "iat" := JNumber(iat), "exp" := JNumber(exp)]
  }

  function Header(): map<string, Json> { map["alg" := JString("HS256"), "typ" := JString("JWT")] }

  function Signature(lib: Library, secret: Bytes, signingInput: string): string {
    UrlEncoded(lib.hmac(secret, AsBytes(signingInput)))
  }

  /** Latin-1 text as bytes; other characters do not occur in what is signed. */
  function AsBytes(text: string): Bytes {
    seq(|text|, i requires 0 <= i < |text| => if text[i] as int < 256 then text[i] as int else '?' as int)
  }

  /** QString::toLatin1: a character outside Latin-1 becomes a question mark for each of its UTF-16 units. */
  function ToLatin1(text: string): string {
    if text == "" then ""
    else
      var n := text[0] as int;
      (if n < 256 then [text[0]] else if n < 0x10000 then "?" else "??") + ToLatin1(text[1..])
  }

  /** QByteArray::split. */
  function Split(text: string, at: char): (parts: seq<string>)
    ensures parts != []
  {
    if text == "" then [""]
    else
      var rest := Split(text[1..], at);
      if text[0] == at then [""] + rest else [[text[0]] + rest[0]] + rest[1..]
  }

  function Token(lib: Library, secret: Bytes, userId: string, iat: int, ttlSec: int): string {
    var header := UrlEncoded(lib.toJson(Header()));
    var payload := UrlEncoded(lib.toJson(Claims(userId, iat, iat + ttlSec)));
    header + "." + payload + "." + Signature(lib, secret, header + "." + payload)
  }

  function Verified(lib: Library, secret: Bytes, token: string, now: int): VerifyResult {
    var parts := Split(ToLatin1(token), '.');
    if |parts| != 3 then Invalid("Invalid token format: expected 3 parts")
    else if parts[2] != Signature(lib, secret, parts[0] + "." + parts[1]) then Invalid("Invalid token signature")
    else
      match lib.fromJson(UrlDecoded(parts[1]))
      case NotJson(_) => Invalid("Invalid token payload: not a JSON object")
      case NotAnObject => Invalid("Invalid token payload: not a JSON object")
      case Object(payload) =>
        if "exp" !in payload then Invalid("Token missing 'exp' claim")
        else if now > NumberField(payload, "exp", 0) + CLOCK_SKEW_TOLERANCE_SECONDS then Invalid("Token has expired")
        else if "sub" !in payload then Invalid("Token missing 'sub' claim")
        else if TextField(payload, "sub", "") == "" then Invalid("Token 'sub' claim is empty")
        else VerifyResult(true, TextField(payload, "sub", ""), "")
  }

  class JwtManager {
    const lib: Library
    const secret: Bytes

    constructor (lib: Library, secret: Bytes)
      ensures this.lib == lib && this.secret == secret
    {
      this.lib, this.secret := lib, secret;
    }

    method IssueToken(userId: string, ttlSec: int, now: int) returns (token: string)
      ensures token == Token(lib, secret, userId, now, ttlSec)
    {
      hide UrlEncoded, Claims, Header, AsBytes;
      var headerObj := Header();
      var iat := now;
      var exp := iat + ttlSec;
      var payloadObj := Claims(userId, iat, exp);
      var headerB64 := Base64UrlEncode(lib.toJson(headerObj));
      var payloadB64 := Base64UrlEncode(lib.toJson(payloadObj));
      var signingInput := headerB64 + "." + payloadB64;
      var signatureB64 := Base64UrlEncode(lib.hmac(secret, AsBytes(signingInput)));
      token := headerB64 + "." + payloadB64 + "." + signatureB64;
    }

    method VerifyToken(token: string, now: int) returns (result: VerifyResult)
      ensures result == Verified(lib, secret, token, now)
    {
      var parts := Split(ToLatin1(token), '.');
      if |parts| != 3 {
        return Invalid("Invalid token format: expected 3 parts");
      }
      var expectedSignature := Base64UrlEncode(lib.hmac(secret, AsBytes(parts[0] + "." + parts[1])));
      if parts[2] != expectedSignature {
        return Invalid("Invalid token signature");
      }
      var payloadJson := Base64UrlDecode(parts[1]);
      var payloadDoc := lib.fromJson(payloadJson);
      if !payloadDoc.Object? {
        return Invalid("Invalid token payload: not a JSON object");
      }
      var payloadObj := payloadDoc.fields;
      if "exp" !in payloadObj {
        return Invalid("Token missing 'exp' claim");
      }
      if now > NumberField(payloadObj, "exp", 0) + CLOCK_SKEW_TOLERANCE_SECONDS {
        return Invalid("Token has expired");
      }
      if "sub" !in payloadObj {
        return Invalid("Token missing 'sub' claim");
      }
      var userId := TextField(payloadObj, "sub", "");
      if userId == "" {
        return Invalid("Token 'sub' claim is empty");
      }
      result := VerifyResult(true, userId, "");
    }
  }

  // ---------------------------------------------------------------- splitting

  lemma {:induction false} SplitWhole(text: string, at: char)
    requires at !in text
    ensures Split(text, at) == [text]
  {
    if text != "" {
      SplitWhole(text[1..], at);
      assert [text[0]] + text[1..] == text;
    }
  }

  lemma {:induction false} SplitFirst(text: string, rest: string, at: char)
    requires at !in text
    ensures Split(text + [at] + rest, at) == [text] + Split(rest, at)
  {
    var whole := text + [at] + rest;
    if text == "" {
      assert whole[1..] == rest;
    } else {
      SplitFirst(text[1..], rest, at);
      assert whole[1..] == text[1..] + [at] + rest;
      assert [text[0]] + text[1..] == text;
    }
  }

  lemma SplitThree(a: string, b: string, c: string, at: char)
    requires at !in a && at !in b && at !in c
    ensures Split(a + [at] + b + [at] + c, at) == [a, b, c]
  {
    assert a + [at] + b + [at] + c == a + [at] + (b + [at] + c);
    SplitFirst(a, b + [at] + c, at);
    SplitFirst(b, c, at);
    SplitWhole(c, at);
    assert [a] + ([b] + [c]) == [a, b, c];
  }

  lemma {:induction false} Latin1Stays(text: string)
    requires forall i :: 0 <= i < |text| ==> text[i] as int < 256
    ensures ToLatin1(text) == text
  {
    if text != "" {
      Latin1Stays(text[1..]);
      assert [text[0]] + text[1..] == text;
    }
  }

  /** A token splits into exactly the three parts it was made of: header, claims and the signature of both. */
  lemma TokenParts(lib: Library, secret: Bytes, userId: string, iat: int, ttlSec: int)
    ensures var header := UrlEncoded(lib.toJson(map["alg" := JString("HS256"), "typ" := JString("JWT")]));
            var payload := UrlEncoded(lib.toJson(map["sub" := JString(userId), "iat" := JNumber(iat), "exp" := JNumber(iat + ttlSec)]));
            var signature := UrlEncoded(lib.hmac(secret, AsBytes(header + "." + payload)));
            Split(ToLatin1(Token(lib, secret, userId, iat, ttlSec)), '.') == [header, payload, signature]
  {
    assert Header() == map["alg" := JString("HS256"), "typ" := JString("JWT")];
    assert Claims(userId, iat, iat + ttlSec) == map["sub" := JString(userId), "iat" := JNumber(iat), "exp" := JNumber(iat + ttlSec)];
    hide UrlEncoded, Claims, Header;
    var header := lib.toJson(Header());
    var payload := lib.toJson(Claims(userId, iat, iat + ttlSec));
    var signature := lib.hmac(secret, AsBytes(UrlEncoded(header) + "." + UrlEncoded(payload)));
    EncodedAlphabet(header);
    EncodedAlphabet(payload);
    EncodedAlphabet(signature);
    Latin1Stays(UrlEncoded(header) + "." + UrlEncoded(payload) + "." + UrlEncoded(signature));
    SplitThree(UrlEncoded(header), UrlEncoded(payload), UrlEncoded(signature), '.');
  }

  lemma EncodedApart(a: Bytes, b: Bytes)
    ensures UrlEncoded(a) == UrlEncoded(b) <==> a == b
  {
    RoundTrip(a);
    RoundTrip(b);
  }

  // ---------------------------------------------------------------- any token

  function Occurrences(text: string, c: char): nat {
    if text == "" then 0 else (if text[0] == c then 1 else 0) + Occurrences(text[1..], c)
  }

  lemma {:induction false} PartCount(text: string, at: char)
    ensures |Split(text, at)| == Occurrences(text, at) + 1
  {
    if text != "" { PartCount(text[1..], at); }
  }

  /** A token without exactly two dots is refused for its form. */
  lemma WrongForm(lib: Library, secret: Bytes, token: string, now: int)
    requires Occurrences(ToLatin1(token), '.') != 2
    ensures Verified(lib, secret, token, now) == VerifyResult(false, "", "Invalid token format: expected 3 parts")
  {
    PartCount(ToLatin1(token), '.');
  }

  /** The claims of a payload that name a user and the time it expires. */
  predicate Claiming(doc: Document, userId: string, exp: int) {
    && doc.Object? && "exp" in doc.fields && exp == (if doc.fields["exp"].JNumber? then doc.fields["exp"].number else 0)
    && "sub" in doc.fields && doc.fields["sub"] == JString(userId) && userId != ""
  }

  /** Whoever made it: a token of three parts is accepted for a user exactly when its last part signs the first two
      under the key, and its payload claims that user and a time that lies at most 60 seconds back. */
  lemma AcceptedIff(lib: Library, secret: Bytes, header: string, payload: string, signature: string, now: int, userId: string)
    requires '.' !in header && '.' !in payload && '.' !in signature
    requires forall i :: 0 <= i < |header + "." + payload + "." + signature| ==> (header + "." + payload + "." + signature)[i] as int < 256
    ensures Verified(lib, secret, header + "." + payload + "." + signature, now) == VerifyResult(true, userId, "") <==>
            && signature == UrlEncoded(lib.hmac(secret, AsBytes(header + "." + payload)))
            && exists exp :: Claiming(lib.fromJson(UrlDecoded(payload)), userId, exp) && now <= exp + 60
  {
    Latin1Stays(header + "." + payload + "." + signature);
    SplitThree(header, payload, signature, '.');
    hide UrlEncoded, UrlDecoded, Split, ToLatin1, AsBytes;
    var doc := lib.fromJson(UrlDecoded(payload));
    if doc.Object? && "exp" in doc.fields {
      assert Claiming(doc, userId, NumberField(doc.fields, "exp", 0)) <==> "sub" in doc.fields && doc.fields["sub"] == JString(userId) && userId != "";
    }
  }

  /** Why a correctly signed token is refused. */
  lemma ClaimsRefused(lib: Library, secret: Bytes, header: string, payload: string, now: int)
    requires '.' !in header && '.' !in payload
    requires forall i :: 0 <= i < |header + "." + payload| ==> (header + "." + payload)[i] as int < 256
    ensures var result := Verified(lib, secret, header + "." + payload + "." + Signature(lib, secret, header + "." + payload), now);
            var doc := lib.fromJson(UrlDecoded(payload));
            && (!doc.Object? ==> result == Invalid("Invalid token payload: not a JSON object"))
            && (doc.Object? && "exp" !in doc.fields ==> result == Invalid("Token missing 'exp' claim"))
            && (doc.Object? && "exp" in doc.fields && "sub" !in doc.fields ==>
                  result == Invalid("Token has expired") || result == Invalid("Token missing 'sub' claim"))
  {
    var signature := lib.hmac(secret, AsBytes(header + "." + payload));
    EncodedAlphabet(signature);
    Latin1Stays(header + "." + payload + "." + UrlEncoded(signature));
    SplitThree(header, payload, UrlEncoded(signature), '.');
    hide UrlEncoded, UrlDecoded, Split, ToLatin1, AsBytes;
  }

  // ---------------------------------------------------------------- issuing and verifying

  /** A token verifies to the user it was issued for, exactly when that user is not empty, the token has not
      expired by more than the tolerance, and the verifier's key signs it as the issuer's key did. */
  lemma IssuedVerifies(lib: Library, issuer: Bytes, verifier: Bytes, userId: string, iat: int, ttlSec: int, now: int)
    requires var claims := Claims(userId, iat, iat + ttlSec); lib.fromJson(lib.toJson(claims)) == Object(claims)
    ensures var signingInput := AsBytes(UrlEncoded(lib.toJson(Header())) + "." + UrlEncoded(lib.toJson(Claims(userId, iat, iat + ttlSec))));
            var result := Verified(lib, verifier, Token(lib, issuer, userId, iat, ttlSec), now);
            && (result.valid <==> lib.hmac(verifier, signingInput) == lib.hmac(issuer, signingInput)
                                  && userId != "" && now <= iat + ttlSec + 60)
            && (result.valid ==> result.userId == userId)
            && (!result.valid ==> result.userId == "")
  {
    TokenParts(lib, issuer, userId, iat, ttlSec);
    var claims := Claims(userId, iat, iat + ttlSec);
    var signingInput := AsBytes(UrlEncoded(lib.toJson(Header())) + "." + UrlEncoded(lib.toJson(claims)));
    RoundTrip(lib.toJson(claims));
    EncodedApart(lib.hmac(verifier, signingInput), lib.hmac(issuer, signingInput));
    hide UrlEncoded, UrlDecoded, Token, Split, ToLatin1, AsBytes;
  }

  /** The reason a token of one's own is refused tells the two cases apart. */
  lemma RefusalReason(lib: Library, secret: Bytes, userId: string, iat: int, ttlSec: int, now: int)
    requires var claims := Claims(userId, iat, iat + ttlSec); lib.fromJson(lib.toJson(claims)) == Object(claims)
    ensures var result := Verified(lib, secret, Token(lib, secret, userId, iat, ttlSec), now);
            result == (if now > iat + ttlSec + 60 then Invalid("Token has expired")
                       else if userId == "" then Invalid("Token 'sub' claim is empty")
                       else VerifyResult(true, userId, ""))
  {
    TokenParts(lib, secret, userId, iat, ttlSec);
    RoundTrip(lib.toJson(Claims(userId, iat, iat + ttlSec)));
    hide UrlEncoded, UrlDecoded, Token, Split, ToLatin1, AsBytes, Header;
  }

  /** Two tokens with the same signed text and different last parts cannot both be accepted. */
  lemma OneSignature(lib: Library, secret: Bytes, signedText: string, a: string, b: string, now: int, later: int)
    requires '.' !in a && '.' !in b
    requires forall i :: 0 <= i < |signedText + "." + a| ==> (signedText + "." + a)[i] as int < 256
    requires forall i :: 0 <= i < |signedText + "." + b| ==> (signedText + "." + b)[i] as int < 256
    requires Verified(lib, secret, signedText + "." + a, now).valid && Verified(lib, secret, signedText + "." + b, later).valid
    ensures a == b
  {
    Latin1Stays(signedText + "." + a);
    Latin1Stays(signedText + "." + b);
    SplitLast(signedText, a, '.');
    SplitLast(signedText, b, '.');
  }

  lemma {:induction false} SplitLast(text: string, last: string, at: char)
    requires at !in last
    ensures Split(text + [at] + last, at) == Split(text, at) + [last]
  {
    var whole := text + [at] + last;
    if text == "" {
      SplitWhole(last, at);
      assert whole[1..] == last;
    } else {
      SplitLast(text[1..], last, at);
      assert whole[1..] == text[1..] + [at] + last;
    }
  }
}
