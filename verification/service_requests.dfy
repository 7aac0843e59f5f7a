/** The requests the client sends to the coordination service: method, path,
    timeout, query and JSON body, as built by the `request*` helpers of
    CacheLinkClient, and the `background` flag `makeRequest` adds for calls
    that do not wait. */
module ServiceRequests {
  import opened Results
  import opened PhpValues

  datatype Method = GET | PUT | DELETE

  /** One HTTP request. `keysQuery` is the `k[]` query list of a multi-get;
      `background` is the `background=true` query flag. */
  datatype Request = Request(
    verb: Method,
    path: string,
    timeout: int,
    keysQuery: Option<seq<string>>,
    body: Option<Value>,
    background: bool)

  /** Characters `urlencode` leaves as they are. */
  predicate Unreserved(c: char) {
    ('a' <= c <= 'z') || ('A' <= c <= 'Z') || ('0' <= c <= '9') || c == '-' || c == '_' || c == '.'
  }

  /** PHP's `urlencode` of one byte: unreserved bytes stay, a space becomes
      `+`, any other byte becomes `%` and two upper-case hex digits. */
  function UrlEncodeChar(c: char): string {
    if Unreserved(c) then [c]
    else if c == ' ' then "+"
    else if (c as int) < 256 then ['%', UpperHex[(c as int) / 16], UpperHex[(c as int) % 16]]
    else [c]
  }

  function UrlEncode(s: string): string
    decreases |s|
  {
    if |s| == 0 then "" else UrlEncodeChar(s[0]) + UrlEncode(s[1..])
  }

  /** The value of a hex digit of either case. */
  function HexValue(c: char): (r: Option<nat>)
    ensures r.Some? ==> r.value < 16
  {
    if '0' <= c <= '9' then Some(c as nat - '0' as nat)
    else if 'A' <= c <= 'F' then Some(c as nat - 'A' as nat + 10)
    else if 'a' <= c <= 'f' then Some(c as nat - 'a' as nat + 10)
    else None
  }

  /** Form decoding of a URL path segment, the inverse of `urlencode` (`+`
      is a space, `%XX` a byte). */
  function UrlDecode(t: string): string
    decreases |t|
  {
    if |t| == 0 then ""
    else if t[0] == '+' then " " + UrlDecode(t[1..])
    else if t[0] == '%' && |t| >= 3 && HexValue(t[1]).Some? && HexValue(t[2]).Some? then
      [(HexValue(t[1]).value * 16 + HexValue(t[2]).value) as char] + UrlDecode(t[3..])
    else [t[0]] + UrlDecode(t[1..])
  }

  /** Standard percent-decoding of a URL path segment (section 2.1 of
      RFC 3986): `%XX` is a byte and `+` stays `+`. */
  function PathDecode(t: string): string
    decreases |t|
  {
    if |t| == 0 then ""
    else if t[0] == '%' && |t| >= 3 && HexValue(t[1]).Some? && HexValue(t[2]).Some? then
      [(HexValue(t[1]).value * 16 + HexValue(t[2]).value) as char] + PathDecode(t[3..])
    else [t[0]] + PathDecode(t[1..])
  }

  lemma HexDigitValue(d: nat)
    requires d < 16
    ensures HexValue(UpperHex[d]) == Some(d)
  {
    assert UpperHex == ['0', '1', '2', '3', '4', '5', '6', '7', '8', '9', 'A', 'B', 'C', 'D', 'E', 'F'];
  }

  lemma UrlDecodeChar(c: char, rest: string)
    ensures UrlDecode(UrlEncodeChar(c) + rest) == [c] + UrlDecode(rest)
  {
    var t := UrlEncodeChar(c) + rest;
    if Unreserved(c) || c == ' ' {
      assert t[1..] == rest;
    } else if (c as int) < 256 {
      HexDigitValue((c as int) / 16);
      HexDigitValue((c as int) % 16);
      assert t[3..] == rest;
    } else {
      assert t[1..] == rest;
    }
  }

  lemma PathDecodeChar(c: char, rest: string)
    requires c != ' '
    ensures PathDecode(UrlEncodeChar(c) + rest) == [c] + PathDecode(rest)
  {
    var t := UrlEncodeChar(c) + rest;
    if Unreserved(c) {
      assert t[1..] == rest;
    } else if (c as int) < 256 {
      HexDigitValue((c as int) / 16);
      HexDigitValue((c as int) % 16);
      assert t[3..] == rest;
    } else {
      assert t[1..] == rest;
    }
  }

  /** A service that percent-decodes its paths recovers every key without a
      space; `urlencode` writes a space as `+`, which such a service keeps. */
  lemma {:induction false} PathRoundTrip(s: string)
    requires ' ' !in s
    ensures PathDecode(UrlEncode(s)) == s
    decreases |s|
  {
    if |s| > 0 {
      PathRoundTrip(s[1..]);
      PathDecodeChar(s[0], UrlEncode(s[1..]));
    }
  }

  /** The key `a b` travels as `a+b`, which a percent-decoding service reads
      as `a+b`, while a form-decoding one reads `a b`. */
  lemma SpaceSurvivesOnlyFormDecoding()
    ensures UrlEncode("a b") == "a+b"
    ensures PathDecode("a+b") == "a+b" && UrlDecode("a+b") == "a b"
  {
    assert UrlEncode("a b") == UrlEncodeChar('a') + UrlEncode(" b");
    assert UrlEncode(" b") == UrlEncodeChar(' ') + UrlEncode("b");
    assert UrlEncode("b") == UrlEncodeChar('b') + UrlEncode("");
    assert PathDecode("a+b") == "a" + PathDecode("+b");
    assert PathDecode("+b") == "+" + PathDecode("b");
    assert PathDecode("b") == "b" + PathDecode("");
    assert UrlDecode("a+b") == "a" + UrlDecode("+b");
    assert UrlDecode("+b") == " " + UrlDecode("b");
    assert UrlDecode("b") == "b" + UrlDecode("");
  }

  /** A form-decoding service recovers every key from its URL-encoded path segment. */
  lemma {:induction false} UrlRoundTrip(s: string)
    ensures UrlDecode(UrlEncode(s)) == s
    decreases |s|
  {
    if |s| > 0 {
      UrlDecodeChar(s[0], UrlEncode(s[1..]));
      UrlRoundTrip(s[1..]);
    }
  }

  /** The keys as a JSON list of strings. */
  function KeyList(keys: seq<string>): (r: Value)
    ensures r.List? && |r.items| == |keys|
    ensures forall i :: 0 <= i < |keys| ==> r.items[i] == Str(keys[i])
  {
    List(seq(|keys|, i requires 0 <= i < |keys| => Str(keys[i])))
  }

  /** GET `/{urlencoded key}`. */
  function RequestGet(timeout: int, key: string): (r: Request)
    ensures r.verb == GET && !r.background && r.body.None? && r.keysQuery.None? && r.timeout == timeout
    ensures |r.path| >= 1 && r.path[0] == '/' && UrlDecode(r.path[1..]) == key
    ensures ' ' !in key ==> PathDecode(r.path[1..]) == key
  {
    UrlRoundTrip(key);
    assert ' ' !in key ==> PathDecode(UrlEncode(key)) == key by {
      if ' ' !in key {
        PathRoundTrip(key);
      }
    }
    assert ("/" + UrlEncode(key))[1..] == UrlEncode(key);
    Request(GET, "/" + UrlEncode(key), timeout, None, None, false)
  }

  /** GET `/` with the keys as the `k` query list. */
  function RequestGetMany(timeout: int, keys: seq<string>): (r: Request)
    ensures r.verb == GET && r.path == "/" && r.keysQuery == Some(keys) && !r.background && r.timeout == timeout
  {
    Request(GET, "/", timeout, Some(keys), None, false)
  }

  /** PUT `/` with body `{key, data, millis, associations, broadcast}`. */
  function RequestSet(timeout: int, key: string, data: string, millis: int, associations: Value, broadcast: bool)
    : (r: Request)
    ensures r.verb == PUT && r.path == "/" && !r.background && r.body.Some? && r.timeout == timeout
    ensures Lookup(r.body.value, "key") == Some(Str(key))
    ensures Lookup(r.body.value, "data") == Some(Str(data))
    ensures Lookup(r.body.value, "millis") == Some(Int(millis))
    ensures Lookup(r.body.value, "associations") == Some(associations)
    ensures Lookup(r.body.value, "broadcast") == Some(Bool(broadcast))
  {
    var fields := [
      Entry("key", Str(key)),
      Entry("data", Str(data)),
      Entry("millis", Int(millis)),
      Entry("associations", associations),
      Entry("broadcast", Bool(broadcast))];
    LookupFindsFirst(fields, 0);
    LookupFindsFirst(fields, 1);
    LookupFindsFirst(fields, 2);
    LookupFindsFirst(fields, 3);
    LookupFindsFirst(fields, 4);
    Request(PUT, "/", timeout, None, Some(Dict(fields)), false)
  }

  /** DELETE `/` with body `{key: [...], levels, local}`; a broadcast clear
      is one that is not local. */
  function RequestClear(timeout: int, keys: seq<string>, levels: string, broadcast: bool): (r: Request)
    ensures r.verb == DELETE && r.path == "/" && !r.background && r.body.Some? && r.timeout == timeout
    ensures Lookup(r.body.value, "key") == Some(KeyList(keys))
    ensures Lookup(r.body.value, "levels") == Some(Str(levels))
    ensures Lookup(r.body.value, "local") == Some(Bool(!broadcast))
  {
    var fields := [
      Entry("key", KeyList(keys)),
      Entry("levels", Str(levels)),
      Entry("local", Bool(!broadcast))];
    LookupFindsFirst(fields, 0);
    LookupFindsFirst(fields, 1);
    LookupFindsFirst(fields, 2);
    Request(DELETE, "/", timeout, None, Some(Dict(fields)), false)
  }

  /** PUT `/clear-later` with body `{key: [...]}`. */
  function RequestClearLater(timeout: int, keys: seq<string>): (r: Request)
    ensures r.verb == PUT && r.path == "/clear-later" && !r.background && r.body.Some? && r.timeout == timeout
    ensures Lookup(r.body.value, "key") == Some(KeyList(keys))
  {
    Request(PUT, "/clear-later", timeout, None, Some(Dict([Entry("key", KeyList(keys))])), false)
  }

  /** GET `/clear-now`, no body. */
  function RequestTriggerClearNow(timeout: int): (r: Request)
    ensures r.verb == GET && r.path == "/clear-now" && !r.background && r.body.None? && r.timeout == timeout
  {
    Request(GET, "/clear-now", timeout, None, None, false)
  }

  /** A call that does not wait asks the service to work in the background;
      nothing else about the request changes. */
  function MakeRequest(request: Request, wait: bool): (r: Request)
    ensures r.background <==> request.background || !wait
    ensures r.(background := request.background) == request
  {
    if !wait then request.(background := true) else request
  }
}
