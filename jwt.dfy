/** `decodeJwtPayload`: reading the claims of a compact JSON Web Token
  * (section 3 of RFC 7519, section 7.1 of RFC 7515) without checking its
  * signature or expiry. The same function is written out in
  * app/middleware/manager-only.ts and app/composables/useAuth.ts. */
module Jwt {
  import opened Wrappers
  import opened Strings
  import opened Json

  /** The browser primitives the decoder calls: `atob` (None when it throws or is
    * not a function) and `JSON.parse` (None when it throws). */
  datatype Host = Host(atob: string -> Option<string>, parse: string -> Option<Value>)

  /** `const [, payload] = token.split(".")`: the second dot-separated segment, if any. */
  function PayloadSegment(token: string): (r: Option<string>)
    ensures r.Some? <==> '.' in token
    ensures r.Some? ==> '.' !in r.value
  {
    var parts := Split(token, '.');
    if |parts| >= 2 then Some(parts[1]) else None
  }

  /** In `header.payload.signature`, or `header.payload`, the payload is the middle part. */
  lemma CompactPayload(header: string, payload: string, signature: string)
    requires '.' !in header && '.' !in payload
    ensures PayloadSegment(header + "." + payload + "." + signature) == Some(payload)
    ensures PayloadSegment(header + "." + payload) == Some(payload)
  {
    assert Split(header + "." + payload + "." + signature, '.')[1] == payload by {
      assert header + "." + payload + "." + signature == header + ['.'] + (payload + ['.'] + signature);
      SplitAfter(header, '.', payload + "." + signature);
      SplitAfter(payload, '.', signature);
    }
    assert Split(header + "." + payload, '.')[1] == payload by {
      assert header + "." + payload == header + ['.'] + payload;
      SplitAfter(header, '.', payload);
      SplitWithout(payload, '.');
    }
  }

  function Base64Char(c: char): char
  {
    if c == '-' then '+' else if c == '_' then '/' else c
  }

  function Base64UrlChar(c: char): char
  {
    if c == '+' then '-' else if c == '/' then '_' else c
  }

  /** `.replace(/-/g, "+").replace(/_/g, "/")`: the base64url alphabet rewritten to the
    * standard base64 alphabet (sections 5 and 4 of RFC 4648). */
  function ToBase64Alphabet(s: string): (r: string)
    ensures |r| == |s|
    ensures '-' !in r && '_' !in r
    ensures forall i :: 0 <= i < |s| && s[i] != '-' && s[i] != '_' ==> r[i] == s[i]
  {
    seq(|s|, i requires 0 <= i < |s| => Base64Char(s[i]))
  }

  /** The inverse rewrite, standard base64 back to base64url. */
  function ToBase64UrlAlphabet(s: string): (r: string)
    ensures |r| == |s|
    ensures '+' !in r && '/' !in r
  {
    seq(|s|, i requires 0 <= i < |s| => Base64UrlChar(s[i]))
  }

  /** On a genuine base64url segment (which never holds `+` or `/`) the rewrite loses nothing. */
  lemma AlphabetRoundTrip(s: string)
    requires '+' !in s && '/' !in s
    ensures ToBase64UrlAlphabet(ToBase64Alphabet(s)) == s
  {
  }

  /** `.padEnd(Math.ceil(n / 4) * 4, "=")`, where `n` is the `length` in UTF-16 units: the
    * shortest extension by `=` to a multiple of four units (section 3.2 of RFC 4648). */
  function PadToQuad(s: string): (r: string)
    ensures Utf16Length(r) % 4 == 0
    ensures Utf16Length(s) <= Utf16Length(r) < Utf16Length(s) + 4
    ensures |s| <= |r| && r[..|s|] == s
    ensures |r| - |s| == Utf16Length(r) - Utf16Length(s)
    ensures forall k :: |s| <= k < |r| ==> r[k] == '='
  {
    PadEnd(s, (Utf16Length(s) + 3) / 4 * 4, '=')
  }

  /** No shorter multiple of four would hold the input, so the padding is minimal. */
  lemma PadToQuadIsCeiling(s: string, m: nat)
    requires m % 4 == 0 && Utf16Length(s) <= m
    ensures Utf16Length(PadToQuad(s)) <= m
  {
  }

  /** A segment whose length is already a multiple of four gets no padding. */
  lemma PadToQuadAligned(s: string)
    requires Utf16Length(s) % 4 == 0
    ensures PadToQuad(s) == s
  {
    var n := Utf16Length(s);
    var q := n / 4;
    assert n == 4 * q;
    assert (n + 3) / 4 == q;
  }

  /** A character outside the Basic Multilingual Plane is two units long, so it needs two
    * `=`, not three. */
  lemma PadToQuadAstral()
    ensures PadToQuad("\U{1F600}") == "\U{1F600}=="
  {
    var s := "\U{1F600}";
    assert Utf16Length(s) == 2;
    var r := PadToQuad(s);
    assert |r| == 3;
    assert r[..1] == s;
  }

  /** The rewrite swaps characters of the Basic Multilingual Plane only, so it keeps the
    * length in UTF-16 units. */
  lemma AlphabetKeepsUtf16Length(s: string)
    ensures Utf16Length(ToBase64Alphabet(s)) == Utf16Length(s)
  {
    Utf16LengthSameWidths(ToBase64Alphabet(s), s);
  }

  /** The string handed to `atob` for a payload segment. */
  function Base64Input(segment: string): (r: string)
    ensures Utf16Length(r) % 4 == 0
    ensures Utf16Length(segment) <= Utf16Length(r) < Utf16Length(segment) + 4
    ensures |segment| <= |r| && r[..|segment|] == ToBase64Alphabet(segment)
    ensures forall k :: |segment| <= k < |r| ==> r[k] == '='
    ensures '-' !in r && '_' !in r
  {
    AlphabetKeepsUtf16Length(segment);
    PadToQuad(ToBase64Alphabet(segment))
  }

  /** `decodeJwtPayload(token)`: the parsed payload, or None when the token has no second
    * segment, the segment is empty, or decoding or parsing fails. It never throws. */
  function DecodePayload(token: string, host: Host): (r: Option<Value>)
    ensures r.Some? ==>
      && PayloadSegment(token).Some? && PayloadSegment(token).value != ""
      && host.atob(Base64Input(PayloadSegment(token).value)).Some?
      && r == host.parse(host.atob(Base64Input(PayloadSegment(token).value)).value)
    ensures PayloadSegment(token).Some? && PayloadSegment(token).value != "" ==>
      r == match host.atob(Base64Input(PayloadSegment(token).value))
           case None => None
           case Some(text) => host.parse(text)
  {
    match PayloadSegment(token)
    case None => None
    case Some(segment) =>
      if segment == "" then None
      else
        match host.atob(Base64Input(segment))
        case None => None
        case Some(text) => host.parse(text)
  }

  /** The empty token, a token without a dot, and a token whose second segment is empty
    * (`"a..b"`, `"a."`) carry no payload, whatever the decoder. */
  lemma MalformedTokensHaveNoPayload(token: string, host: Host)
    requires '.' !in token || PayloadSegment(token) == Some("")
    ensures DecodePayload(token, host) == None
  {
  }

  /** A compact token with a non-empty middle segment yields exactly what decoding and
    * parsing that segment yields. */
  lemma CompactTokenDecodes(header: string, payload: string, signature: string, host: Host)
    requires '.' !in header && '.' !in payload && payload != ""
    ensures DecodePayload(header + "." + payload + "." + signature, host) ==
      match host.atob(Base64Input(payload))
      case None => None
      case Some(text) => host.parse(text)
  {
    CompactPayload(header, payload, signature);
  }

  /** A token of two parts, `header.payload`, is decoded the same way: the signature is
    * never looked at. */
  lemma TwoPartTokenDecodes(header: string, payload: string, host: Host)
    requires '.' !in header && '.' !in payload && payload != ""
    ensures DecodePayload(header + "." + payload, host) ==
      match host.atob(Base64Input(payload))
      case None => None
      case Some(text) => host.parse(text)
  {
    CompactPayload(header, payload, "");
  }
}
