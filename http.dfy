/**
 * The request helpers both REST clients share: how a request URL is joined, how a response
 * becomes a value or an error, how path segments are percent-encoded, and how a caught
 * JavaScript value is turned into a message.
 */
module Http {
  import opened Wrappers
  import opened Strings

  /** `s.replace(/\/$/, "")`: at most one trailing slash removed. */
  function StripTrailingSlash(s: string): (r: string)
    ensures |r| <= |s| && r == s[..|r|] && |s| - |r| <= 1
  {
    if s != [] && s[|s| - 1] == '/' then s[..|s| - 1] else s
  }

  /** `s.replace(/^\//, "")`: at most one leading slash removed. */
  function StripLeadingSlash(s: string): (r: string)
    ensures |r| <= |s| && r == s[|s| - |r|..] && |s| - |r| <= 1
  {
    if s != [] && s[0] == '/' then s[1..] else s
  }

  /** The request URL: base and path joined by exactly one slash of their own making. */
  function JoinUrl(base: string, path: string): (url: string)
    ensures |url| == |StripTrailingSlash(base)| + 1 + |StripLeadingSlash(path)|
    ensures StartsWith(url, StripTrailingSlash(base))
    ensures EndsWith(url, StripLeadingSlash(path))
    ensures url[|StripTrailingSlash(base)|] == '/'
  {
    StripTrailingSlash(base) + "/" + StripLeadingSlash(path)
  }

  /** Whether the caller writes a slash at the end of the base, at the start of the path, both or neither, the URL is the same. */
  lemma JoinUrlNormalises(base: string, path: string)
    requires base == [] || base[|base| - 1] != '/'
    requires path == [] || path[0] != '/'
    ensures JoinUrl(base, path) == base + "/" + path
    ensures JoinUrl(base + "/", path) == base + "/" + path
    ensures JoinUrl(base, "/" + path) == base + "/" + path
    ensures JoinUrl(base + "/", "/" + path) == base + "/" + path
  {
    SlashesStripped(base, path);
  }

  /** The strip functions undo exactly the one slash a caller may add. */
  lemma SlashesStripped(base: string, path: string)
    requires base == [] || base[|base| - 1] != '/'
    requires path == [] || path[0] != '/'
    ensures StripTrailingSlash(base) == base && StripTrailingSlash(base + "/") == base
    ensures StripLeadingSlash(path) == path && StripLeadingSlash("/" + path) == path
  {
    assert (base + "/")[..|base|] == base;
    assert ("/" + path)[1..] == path;
  }

  /** Only one slash is removed on each side: doubled slashes survive as one extra slash. */
  lemma JoinUrlStripsOnlyOne(base: string, path: string)
    ensures JoinUrl(base + "//", "//" + path) == base + "/" + "/" + "/" + path
  {
    var b, p := base + "//", "//" + path;
    assert b[|b| - 1] == '/' && b[..|b| - 1] == base + "/";
    assert StripTrailingSlash(b) == base + "/";
    assert p[0] == '/' && p[1..] == "/" + path;
    assert StripLeadingSlash(p) == "/" + path;
  }

  /** A fetch response: its status and its body text. */
  datatype HttpResponse = HttpResponse(status: nat, text: string) {
    /** `response.ok`. */
    predicate Ok() { 200 <= status <= 299 }
  }

  /** What a successful request resolves to: `undefined` for 204, otherwise the JSON body (left unparsed). */
  datatype Payload = NoContent | Body(json: string)

  /** The message a failed request throws: the body text, or "<provider> request failed: <status>" when the body is empty. */
  function FailureMessage(provider: string, response: HttpResponse): (message: string)
    ensures message != []
    ensures response.text != [] ==> message == response.text
    ensures response.text == [] ==> message == provider + " request failed: " + NatToString(response.status)
  {
    if response.text != [] then response.text
    else provider + " request failed: " + NatToString(response.status)
  }

  /** The tail of `request`: a non-OK response throws, 204 yields undefined, anything else its JSON body. */
  function Interpret(provider: string, response: HttpResponse): (r: Result<Payload>)
    ensures r.Err? <==> !response.Ok()
    ensures r.Err? ==> r.error != [] && (response.text != [] ==> r.error == response.text)
    ensures r.Ok? ==> (r.value == NoContent <==> response.status == 204)
    ensures r.Ok? && response.status != 204 ==> r.value == Body(response.text)
  {
    if !response.Ok() then Err(FailureMessage(provider, response))
    else if response.status == 204 then Ok(NoContent)
    else Ok(Body(response.text))
  }

  /** The characters `encodeURIComponent` leaves as they are. */
  predicate IsUnreserved(c: char) {
    || ('A' <= c <= 'Z') || ('a' <= c <= 'z') || ('0' <= c <= '9')
    || c == '-' || c == '_' || c == '.' || c == '!' || c == '~' || c == '*' || c == '\'' || c == '(' || c == ')'
  }

  predicate IsUpperHexDigit(c: char) {
    ('0' <= c <= '9') || ('A' <= c <= 'F')
  }

  /** The upper-case hex digit of a value below 16. */
  function HexDigit(d: nat): (c: char)
    requires d < 16
    ensures IsUpperHexDigit(c) && HexValue(c) == d
  {
    if d < 10 then ('0' as int + d) as char else ('A' as int + d - 10) as char
  }

  /** The value of a hex digit; any other character reads as 0. */
  function HexValue(c: char): (d: nat)
    ensures d < 16
  {
    if '0' <= c <= '9' then c as int - '0' as int
    else if 'A' <= c <= 'F' then c as int - 'A' as int + 10
    else 0
  }

  /** The length of a UTF-8 sequence, read from its first byte. */
  function Utf8Length(first: nat): (n: nat)
    ensures 1 <= n <= 4
  {
    if first < 0x80 then 1 else if first < 0xE0 then 2 else if first < 0xF0 then 3 else 4
  }

  /** The code point a UTF-8 sequence of one to four bytes encodes; any other length reads as 0. */
  function Utf8Value(bytes: seq<nat>): int {
    if |bytes| == 1 then bytes[0]
    else if |bytes| == 2 then (bytes[0] as int - 0xC0) * 64 + (bytes[1] as int - 0x80)
    else if |bytes| == 3 then ((bytes[0] as int - 0xE0) * 64 + (bytes[1] as int - 0x80)) * 64 + (bytes[2] as int - 0x80)
    else if |bytes| == 4 then
      (((bytes[0] as int - 0xF0) * 64 + (bytes[1] as int - 0x80)) * 64 + (bytes[2] as int - 0x80)) * 64 + (bytes[3] as int - 0x80)
    else 0
  }

  /** The UTF-8 encoding of one Unicode scalar value: its first byte announces its length, and it decodes back to the character. */
  function Utf8(c: char): (bytes: seq<nat>)
    ensures 1 <= |bytes| <= 4
    ensures forall i :: 0 <= i < |bytes| ==> bytes[i] < 256
    ensures Utf8Length(bytes[0]) == |bytes|
    ensures Utf8Value(bytes) == c as int
  {
    var cp := c as int;
    var q1 := cp / 64;
    var q2 := q1 / 64;
    var q3 := q2 / 64;
    assert cp == q1 * 64 + cp % 64 && q1 == q2 * 64 + q1 % 64 && q2 == q3 * 64 + q2 % 64;
    if cp < 0x80 then [cp]
    else if cp < 0x800 then [0xC0 + q1, 0x80 + cp % 64]
    else if cp < 0x10000 then [0xE0 + q2, 0x80 + q1 % 64, 0x80 + cp % 64]
    else [0xF0 + q3, 0x80 + q2 % 64, 0x80 + q1 % 64, 0x80 + cp % 64]
  }

  /** The bytes of a run of `%XX` triples, one byte per complete triple. */
  function PercentBytes(r: string): (bytes: seq<nat>)
    decreases |r|
  {
    if |r| < 3 then [] else [HexValue(r[1]) * 16 + HexValue(r[2])] + PercentBytes(r[3..])
  }

  /** `%XX` for every byte, upper-case hex. */
  function PercentEncode(bytes: seq<nat>): (r: string)
    requires forall i :: 0 <= i < |bytes| ==> bytes[i] < 256
    ensures |r| == 3 * |bytes|
    ensures forall i :: 0 <= i < |r| ==> r[i] == '%' || IsUpperHexDigit(r[i])
    decreases |bytes|
  {
    if bytes == [] then []
    else ['%', HexDigit(bytes[0] / 16), HexDigit(bytes[0] % 16)] + PercentEncode(bytes[1..])
  }

  /** `encodeURIComponent(s)`: unreserved characters kept, everything else percent-encoded as UTF-8. */
  function EncodeUriComponent(s: string): (r: string)
    ensures forall i :: 0 <= i < |r| ==> IsUnreserved(r[i]) || r[i] == '%' || IsUpperHexDigit(r[i])
    ensures (forall i :: 0 <= i < |s| ==> IsUnreserved(s[i])) ==> r == s
    decreases |s|
  {
    if s == [] then []
    else
      (if IsUnreserved(s[0]) then [s[0]] else PercentEncode(Utf8(s[0]))) + EncodeUriComponent(s[1..])
  }

  /** The code points of a text, one per character. */
  function CodePoints(s: string): (cps: seq<int>)
    ensures |cps| == |s|
    ensures forall i :: 0 <= i < |s| ==> cps[i] == s[i] as int
  {
    seq(|s|, i requires 0 <= i < |s| => s[i] as int)
  }

  /**
   * `decodeURIComponent`, read into code points: a `%XX` triple starts a UTF-8 sequence as long
   * as its first byte announces; any other character stands for itself, and so does a "%" that
   * cannot start a complete sequence. With `plusIsSpace`, a "+" reads as a space, as in a
   * form-encoded query value.
   */
  function PercentDecode(r: string, plusIsSpace: bool): (cps: seq<int>)
    decreases |r|
  {
    if r == [] then []
    else if plusIsSpace && r[0] == '+' then [' ' as int] + PercentDecode(r[1..], plusIsSpace)
    else if r[0] != '%' || |r| < 3 then [r[0] as int] + PercentDecode(r[1..], plusIsSpace)
    else
      var n := Utf8Length(HexValue(r[1]) * 16 + HexValue(r[2]));
      if |r| < 3 * n then [r[0] as int] + PercentDecode(r[1..], plusIsSpace)
      else [Utf8Value(PercentBytes(r[..3 * n]))] + PercentDecode(r[3 * n..], plusIsSpace)
  }

  /** Reading the triples back gives the bytes. */
  lemma {:induction false} PercentBytesOfEncode(bytes: seq<nat>)
    requires forall i :: 0 <= i < |bytes| ==> bytes[i] < 256
    ensures PercentBytes(PercentEncode(bytes)) == bytes
    decreases |bytes|
  {
    if bytes != [] {
      var r := PercentEncode(bytes);
      PercentBytesOfEncode(bytes[1..]);
      assert r[3..] == PercentEncode(bytes[1..]);
      assert HexValue(r[1]) * 16 + HexValue(r[2]) == bytes[0];
    }
  }

  /** A character's encoding read back from the front of a longer text gives the character, then the rest. */
  lemma EncodedCharDecodes(c: char, rest: string, plusIsSpace: bool)
    ensures PercentDecode(PercentEncode(Utf8(c)) + rest, plusIsSpace) == [c as int] + PercentDecode(rest, plusIsSpace)
  {
    var bytes := Utf8(c);
    var head := PercentEncode(bytes);
    var r := head + rest;
    var n := |bytes|;
    assert r[0] == '%' && r[1] == head[1] && r[2] == head[2];
    assert HexValue(r[1]) * 16 + HexValue(r[2]) == bytes[0];
    assert r[..3 * n] == head && r[3 * n..] == rest;
    PercentBytesOfEncode(bytes);
  }

  /** `decodeURIComponent(encodeURIComponent(s))` gives back the text. */
  lemma {:induction false} DecodeEncodeUriComponent(s: string)
    ensures PercentDecode(EncodeUriComponent(s), false) == CodePoints(s)
    decreases |s|
  {
    if s != [] {
      DecodeEncodeUriComponent(s[1..]);
      var rest := EncodeUriComponent(s[1..]);
      if IsUnreserved(s[0]) {
        assert ([s[0]] + rest)[1..] == rest;
      } else {
        EncodedCharDecodes(s[0], rest, false);
      }
      assert CodePoints(s) == [s[0] as int] + CodePoints(s[1..]);
    }
  }

  /** Distinct texts have distinct encodings. */
  lemma EncodeUriComponentInjective(a: string, b: string)
    requires EncodeUriComponent(a) == EncodeUriComponent(b)
    ensures a == b
  {
    DecodeEncodeUriComponent(a);
    DecodeEncodeUriComponent(b);
    assert forall i :: 0 <= i < |a| ==> a[i] as int == CodePoints(a)[i] == CodePoints(b)[i] == b[i] as int;
  }

  /** An encoded component never contains a path, query or fragment delimiter, so it stays one path segment. */
  lemma EncodedComponentIsOneSegment(s: string)
    ensures '/' !in EncodeUriComponent(s) && '?' !in EncodeUriComponent(s) && '#' !in EncodeUriComponent(s)
  {
    var r := EncodeUriComponent(s);
    forall i | 0 <= i < |r| ensures r[i] != '/' && r[i] != '?' && r[i] != '#' {
    }
  }

  /** `new URLSearchParams(...).toString()` for one value: alphanumerics and `*-._` kept, space as `+`, the rest percent-encoded as UTF-8. */
  function FormUrlEncode(s: string): (r: string)
    ensures forall i :: 0 <= i < |r| ==> r[i] != '&' && r[i] != '=' && r[i] != '#'
    decreases |s|
  {
    if s == [] then []
    else
      var c := s[0];
      var head :=
        if ('A' <= c <= 'Z') || ('a' <= c <= 'z') || ('0' <= c <= '9') || c == '*' || c == '-' || c == '.' || c == '_' then [c]
        else if c == ' ' then "+"
        else PercentEncode(Utf8(c));
      head + FormUrlEncode(s[1..])
  }

  /** Reading a form-encoded value back, "+" as a space, gives the text. */
  lemma {:induction false} DecodeFormUrlEncode(s: string)
    ensures PercentDecode(FormUrlEncode(s), true) == CodePoints(s)
    decreases |s|
  {
    if s != [] {
      DecodeFormUrlEncode(s[1..]);
      var c := s[0];
      var rest := FormUrlEncode(s[1..]);
      if ('A' <= c <= 'Z') || ('a' <= c <= 'z') || ('0' <= c <= '9') || c == '*' || c == '-' || c == '.' || c == '_' {
        assert ([c] + rest)[1..] == rest;
      } else if c == ' ' {
        assert ("+" + rest)[1..] == rest;
      } else {
        EncodedCharDecodes(c, rest, true);
      }
      assert CodePoints(s) == [c as int] + CodePoints(s[1..]);
    }
  }

  /** Distinct query values have distinct form encodings. */
  lemma FormUrlEncodeInjective(a: string, b: string)
    requires FormUrlEncode(a) == FormUrlEncode(b)
    ensures a == b
  {
    DecodeFormUrlEncode(a);
    DecodeFormUrlEncode(b);
    assert forall i :: 0 <= i < |a| ==> a[i] as int == CodePoints(a)[i] == CodePoints(b)[i] == b[i] as int;
  }

  /** The requests a handler issued, in order, and how it ended. */
  datatype Trace<C> = Trace(calls: seq<C>, outcome: Outcome)

  /** A value caught by a `catch` block: an `Error` with its message, or any other value with its `String(...)` text. */
  datatype Thrown = ErrorObject(message: string) | OtherValue(text: string)

  /** What an awaited SDK or browser call did: returned a value or threw. */
  datatype Call<T> = Returned(value: T) | Threw(thrown: Thrown)

  /** `error instanceof Error ? error.message : String(error)`, the message the pages display. */
  function DisplayText(e: Thrown): string {
    match e
    case ErrorObject(m) => m
    case OtherValue(t) => t
  }

  /** `extractErrorMessage`: an Error's message, otherwise "Unexpected error". */
  function ExtractErrorMessage(e: Thrown): (message: string)
    ensures e.ErrorObject? ==> message == e.message
    ensures e.OtherValue? ==> message == "Unexpected error"
  {
    if e.ErrorObject? then e.message else "Unexpected error"
  }
}
