/**
  The slice of the HTTP framework (axum and the `http` crate) that the error
  classifier and the authentication gate rely on: status codes, the response
  built from a `(status, message)` pair, header values and `to_str`, and the
  header map with its `get`.
*/
module Http {
  import opened Wrappers

  /** A status code; as in the `http` crate, only three-digit values exist. */
  newtype StatusCode = x: int | 100 <= x < 1000 witness 200

  // Section 15.5.1 of RFC 9110.
  const BAD_REQUEST: StatusCode := 400
  // Section 15.5.2 of RFC 9110.
  const UNAUTHORIZED: StatusCode := 401
  // Section 15.5.4 of RFC 9110.
  const FORBIDDEN: StatusCode := 403
  // Section 15.6.1 of RFC 9110.
  const INTERNAL_SERVER_ERROR: StatusCode := 500

  /** The 4xx class of section 15.5 of RFC 9110: the request is at fault. */
  predicate IsClientError(s: StatusCode) {
    400 <= s < 500
  }

  /** The 5xx class of section 15.6 of RFC 9110: the server is at fault. */
  predicate IsServerError(s: StatusCode) {
    500 <= s < 600
  }

  /** What `(status, message).into_response()` builds: that status and a plain-text body. */
  datatype Response = Response(status: StatusCode, body: string)

  newtype byte = x: int | 0 <= x < 256

  /** A header value is a sequence of bytes; nothing forces it to be text. */
  type HeaderValue = seq<byte>

  /** Visible ASCII as `HeaderValue::to_str` accepts it: a printable character or a tab. */
  predicate IsVisibleAscii(b: byte) {
    32 <= b < 127 || b == 9
  }

  predicate AllVisible(v: HeaderValue) {
    forall k :: 0 <= k < |v| ==> IsVisibleAscii(v[k])
  }

  /** The text whose characters have the code points of the bytes of `v`, one for one. */
  function AsciiText(v: HeaderValue): (t: string)
    ensures |t| == |v|
  {
    seq(|v|, k requires 0 <= k < |v| => v[k] as char)
  }

  /**
    `HeaderValue::to_str`: the value read as text when every byte is visible
    ASCII, and an error otherwise. It scans the bytes front to back.
  */
  function ToStr(v: HeaderValue): (r: Option<string>)
    ensures r.Some? <==> AllVisible(v)
    ensures r.Some? ==> |r.value| == |v| && forall k :: 0 <= k < |v| ==> r.value[k] as int == v[k] as int
  {
    if v == [] then Some("")
    else if !IsVisibleAscii(v[0]) then None
    else
      match ToStr(v[1..])
      case None => None
      case Some(rest) => Some([v[0] as char] + rest)
  }

  /** A text all of whose characters are visible ASCII. */
  predicate IsVisibleText(t: string) {
    forall k :: 0 <= k < |t| ==> (' ' <= t[k] <= '~' || t[k] == '\t')
  }

  /** The bytes of a visible-ASCII text, the way a client puts it on the wire. */
  function AsciiBytes(t: string): (v: HeaderValue)
    requires IsVisibleText(t)
    ensures |v| == |t| && AllVisible(v)
  {
    seq(|t|, k requires 0 <= k < |t| => t[k] as int as byte)
  }

  /** Reading the bytes of a visible text gives that text back. */
  lemma ToStrOfAsciiBytes(t: string)
    requires IsVisibleText(t)
    ensures ToStr(AsciiBytes(t)) == Some(t)
  {
    var v := AsciiBytes(t);
    var r := ToStr(v);
    assert r.Some? && |r.value| == |t|;
    forall k | 0 <= k < |t| ensures r.value[k] == t[k] {
      assert r.value[k] as int == v[k] as int == t[k] as int;
    }
    assert r.value == t;
  }

  /** Conversely, a value `to_str` accepts is exactly the bytes of the text it yields. */
  lemma AsciiBytesOfToStr(v: HeaderValue)
    requires ToStr(v).Some?
    ensures IsVisibleText(ToStr(v).value) && AsciiBytes(ToStr(v).value) == v
  {
  }

  /** Header names are stored lower-case, as `HeaderName` normalises them. */
  predicate IsLowerCase(s: string) {
    forall k :: 0 <= k < |s| ==> !('A' <= s[k] <= 'Z')
  }

  type HeaderName = s: string | IsLowerCase(s)

  function LowerChar(c: char): char {
    if 'A' <= c <= 'Z' then (c as int + 32) as char else c
  }

  /** The normalisation `HeaderMap::get` applies to a `&str` key. */
  function ToLower(s: string): (r: HeaderName)
    ensures |r| == |s| && forall k :: 0 <= k < |s| ==> r[k] == LowerChar(s[k])
    ensures IsLowerCase(s) ==> r == s
  {
    var r := seq(|s|, k requires 0 <= k < |s| => LowerChar(s[k]));
    assert IsLowerCase(s) ==> forall k :: 0 <= k < |s| ==> r[k] == s[k];
    r
  }

  datatype Header = Header(name: HeaderName, value: HeaderValue)

  /** A header map: its entries in the order they arrived, repeats allowed. */
  type HeaderMap = seq<Header>

  /** `i` is the position of the first entry called `name`. */
  predicate FirstNamed(h: HeaderMap, name: HeaderName, i: int) {
    0 <= i < |h| && h[i].name == name && forall j :: 0 <= j < i ==> h[j].name != name
  }

  /**
    `HeaderMap::get`: the key is looked up case-insensitively, and when the
    name occurs several times the first value is returned.
  */
  function Get(h: HeaderMap, key: string): (r: Option<HeaderValue>)
    ensures r.None? <==> forall i :: 0 <= i < |h| ==> h[i].name != ToLower(key)
    ensures r.Some? ==> exists i :: FirstNamed(h, ToLower(key), i) && r.value == h[i].value
    ensures forall i :: FirstNamed(h, ToLower(key), i) ==> r == Some(h[i].value)
  {
    if h == [] then None
    else if h[0].name == ToLower(key) then
      assert FirstNamed(h, ToLower(key), 0);
      Some(h[0].value)
    else
      assert forall i :: FirstNamed(h, ToLower(key), i) ==> FirstNamed(h[1..], ToLower(key), i - 1);
      assert forall i :: FirstNamed(h[1..], ToLower(key), i) ==> FirstNamed(h, ToLower(key), i + 1);
      Get(h[1..], key)
  }

  /** An entry with another name, inserted anywhere, does not change what `get` finds. */
  lemma {:induction false} GetIgnoresOtherNames(h: HeaderMap, i: nat, x: Header, key: string)
    requires i <= |h| && x.name != ToLower(key)
    ensures Get(h[..i] + [x] + h[i..], key) == Get(h, key)
  {
    var h' := h[..i] + [x] + h[i..];
    if i == 0 {
      assert h'[1..] == h;
    } else {
      GetIgnoresOtherNames(h[1..], i - 1, x, key);
      assert h'[0] == h[0];
      assert h'[1..] == h[1..][..i - 1] + [x] + h[1..][i - 1..];
    }
  }
}
