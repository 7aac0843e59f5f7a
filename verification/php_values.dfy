/** The dynamically typed PHP values that the cache client stores, sends and
    receives, together with the PHP built-ins the client applies to them
    (gettype, string conversion, json_encode, urlencode). */
module PhpValues {
  import opened Results

  /** A PHP value. A string is a byte string: each char stands for one byte.
      A PHP array is either a list with keys 0..n-1 (`List`) or an associative
      array with string keys kept in insertion order (`Dict`); the empty array
      is written `List([])`. Floats and objects are not modelled. */
  datatype Value =
    | Null
    | Bool(b: bool)
    | Int(i: int)
    | Str(s: string)
    | List(items: seq<Value>)
    | Dict(entries: seq<Entry>)

  /** One `name => val` pair of an associative array. */
  datatype Entry = Entry(name: string, val: Value)

  predicate IsArray(v: Value) {
    v.List? || v.Dict?
  }

  /** PHP's `empty()` on an array: true exactly when it has no elements. */
  predicate IsEmptyArray(v: Value) {
    v == List([]) || v == Dict([])
  }

  /** The name PHP's `gettype` gives to a value. */
  function TypeName(v: Value): string {
    match v
    case Null => "NULL"
    case Bool(_) => "boolean"
    case Int(_) => "integer"
    case Str(_) => "string"
    case List(_) => "array"
    case Dict(_) => "array"
  }

  /** Decimal digits of a natural number, most significant first. */
  function Digits(n: nat): (r: string)
    ensures |r| >= 1
    decreases n
  {
    if n < 10 then [DigitChar(n)] else Digits(n / 10) + [DigitChar(n % 10)]
  }

  function DigitChar(d: nat): char
    requires d < 10
  {
    "0123456789"[d]
  }

  /** An integer as PHP prints it: optional minus sign, then decimal digits. */
  function Decimal(i: int): string {
    if i < 0 then "-" + Digits(-i) else Digits(i)
  }

  /** PHP's conversion of a scalar to a string, as `strlen` and `substr`
      perform it; an array has no string form (PHP 7's `strlen` yields null). */
  function ScalarString(v: Value): Option<string> {
    match v
    case Null => Some("")
    case Bool(b) => Some(if b then "1" else "")
    case Int(i) => Some(Decimal(i))
    case Str(s) => Some(s)
    case List(_) => None
    case Dict(_) => None
  }

  const LowerHex: string := "0123456789abcdef"
  const UpperHex: string := "0123456789ABCDEF"

  /** The JSON escape of one character under json_encode's default flags:
      quote, backslash and slash are escaped, control characters use their
      short form or `\u00xx`, everything else is copied. */
  function JsonEscapeChar(c: char): string {
    if c == '"' then "\\\""
    else if c == '\\' then "\\\\"
    else if c == '/' then "\\/"
    else if c as int == 0x08 then "\\b"
    else if c as int == 0x0C then "\\f"
    else if c == '\n' then "\\n"
    else if c == '\r' then "\\r"
    else if c == '\t' then "\\t"
    else if (c as int) < 0x20 then "\\u00" + [LowerHex[(c as int) / 16], LowerHex[(c as int) % 16]]
    else [c]
  }

  function JsonEscape(s: string): string
    decreases |s|
  {
    if |s| == 0 then "" else JsonEscapeChar(s[0]) + JsonEscape(s[1..])
  }

  /** A JSON string literal. */
  function JsonString(s: string): string {
    "\"" + JsonEscape(s) + "\""
  }

  /** The texts joined with `sep` between consecutive ones. */
  function Join(parts: seq<string>, sep: string): string
    decreases |parts|
  {
    if |parts| == 0 then ""
    else if |parts| == 1 then parts[0]
    else parts[0] + sep + Join(parts[1..], sep)
  }

  /** PHP's `json_encode` of a value (a list becomes a JSON array, a
      non-empty associative array a JSON object). */
  function Json(v: Value): string
    decreases v
  {
    match v
    case Null => "null"
    case Bool(b) => if b then "true" else "false"
    case Int(i) => Decimal(i)
    case Str(s) => JsonString(s)
    case List(items) =>
      "[" + Join(seq(|items|, k requires 0 <= k < |items| => Json(items[k])), ",") + "]"
    case Dict(entries) =>
      if |entries| == 0 then "[]"
      else "{" + Join(seq(|entries|, k requires 0 <= k < |entries| =>
                            JsonString(entries[k].name) + ":" + Json(entries[k].val)), ",") + "}"
  }

  /** PHP's `$array[$name]` on an associative array: the value of the first
      entry with that name, or None when there is none or `v` is not one. */
  function Lookup(v: Value, name: string): Option<Value> {
    if v.Dict? then LookupEntry(v.entries, name) else None
  }

  function LookupEntry(entries: seq<Entry>, name: string): Option<Value>
    decreases |entries|
  {
    if |entries| == 0 then None
    else if entries[0].name == name then Some(entries[0].val)
    else LookupEntry(entries[1..], name)
  }

  /** The entry at `i` is the one a lookup finds when no earlier entry has
      its name. */
  lemma {:induction false} LookupFindsFirst(entries: seq<Entry>, i: nat)
    requires i < |entries|
    requires forall j :: 0 <= j < i ==> entries[j].name != entries[i].name
    ensures LookupEntry(entries, entries[i].name) == Some(entries[i].val)
    decreases i
  {
    if i > 0 {
      LookupFindsFirst(entries[1..], i - 1);
    }
  }

  /** `t` occurs in `s` starting at position `i`. */
  predicate OccursAt(s: string, t: string, i: int) {
    0 <= i <= |s| - |t| && s[i..i + |t|] == t
  }

  /** `t` occurs in `s` as a contiguous piece. */
  ghost predicate Contains(s: string, t: string) {
    exists i :: OccursAt(s, t, i)
  }

  /** Position of the first occurrence of `c` in `s` (PHP `strpos` for one
      character), or None when `c` does not occur. */
  function FirstIndexOf(s: string, c: char): (r: Option<nat>)
    ensures r.None? <==> c !in s
    ensures r.Some? ==> r.value < |s| && s[r.value] == c && c !in s[..r.value]
    decreases |s|
  {
    if |s| == 0 then None
    else if s[0] == c then Some(0)
    else match FirstIndexOf(s[1..], c)
      case None => None
      case Some(k) => assert s[..k + 1] == [s[0]] + s[1..][..k]; Some(k + 1)
  }
}
