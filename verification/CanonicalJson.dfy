/**
 JSON values and the two canonical printers: `canonical_json_value` of the Rust crates and
 `canonical_json` of the Python agents.
 */
module CanonicalJson {
  import opened Ordering
  import opened Utf8

  /** `serde_json::Value` without floating-point numbers. */
  datatype Value =
    | Null
    | Bool(b: bool)
    | Number(n: int)
    | Str(s: string)
    | Array(items: seq<Value>)
    | Object(fields: map<string, Value>)

  /** `value.get(key)`; indexing a value that is no object, or lacks the key, finds nothing. */
  function Get(v: Value, key: string): Value {
    if v.Object? && key in v.fields then v.fields[key] else Null
  }

  function Has(v: Value, key: string): bool {
    v.Object? && key in v.fields
  }

  // ----- decimal numbers -----

  function Digit(d: int): (c: char)
    requires 0 <= d < 10
    ensures '0' <= c <= '9'
  {
    (('0' as int) + d) as char
  }

  function Decimal(n: nat): (t: string)
    ensures t != [] && '0' <= t[0] <= '9'
  {
    if n < 10 then [Digit(n)] else Decimal(n / 10) + [Digit(n % 10)]
  }

  function Integer(n: int): string {
    if n < 0 then "-" + Decimal(-n) else Decimal(n)
  }

  // ----- the Rust printer -----

  function HexDigit(d: int): char
    requires 0 <= d < 16
  {
    if d < 10 then Digit(d) else (('a' as int) + d - 10) as char
  }

  /** `serde_json` escapes a character by a table of bytes. */
  function RustEscape(c: char): string {
    if c == '\"' then "\\\""
    else if c == '\\' then "\\\\"
    else if c == '\U{08}' then "\\b"
    else if c == '\U{0C}' then "\\f"
    else if c == '\n' then "\\n"
    else if c == '\r' then "\\r"
    else if c == '\t' then "\\t"
    else if c < ' ' then "\\u00" + [HexDigit(c as int / 16), HexDigit(c as int % 16)]
    else [c]
  }

  function RustEscapeAll(s: string): string {
    if s == [] then "" else RustEscape(s[0]) + RustEscapeAll(s[1..])
  }

  function RustString(s: string): string {
    "\"" + RustEscapeAll(s) + "\""
  }

  /** The keys of a `BTreeMap<String, _>` in iteration order. */
  ghost function RustKeys(m: map<string, Value>): (keys: seq<string>)
    ensures forall k :: k in keys <==> k in m
  {
    ByteLessTotal();
    ListingIs(ByteLess, m.Keys);
    Listing(ByteLess, m.Keys)
  }

  ghost function RustText(v: Value): string
    decreases v, 1
  {
    match v
    case Null => "null"
    case Bool(b) => if b then "true" else "false"
    case Number(n) => Integer(n)
    case Str(s) => RustString(s)
    case Array(items) => "[" + RustItems(items) + "]"
    case Object(m) => "{" + RustFields(v, RustKeys(m)) + "}"
  }

  ghost function RustItems(items: seq<Value>): string
    decreases items, 0
  {
    if items == [] then ""
    else if |items| == 1 then RustText(items[0])
    else RustText(items[0]) + "," + RustItems(items[1..])
  }

  ghost function RustFields(v: Value, keys: seq<string>): string
    requires v.Object? && forall k :: k in keys ==> k in v.fields
    decreases v, 0, |keys|
  {
    if keys == [] then ""
    else
      var first := RustString(keys[0]) + ":" + RustText(v.fields[keys[0]]);
      if |keys| == 1 then first else first + "," + RustFields(v, keys[1..])
  }

  // ----- the Python printer -----

  /** Lower-case hexadecimal, at least one digit. */
  function Hex(n: nat): string {
    if n < 16 then [HexDigit(n)] else Hex(n / 16) + [HexDigit(n % 16)]
  }

  function ZeroPad(t: string, width: nat): string
    decreases width - |t|
  {
    if |t| >= width then t else ZeroPad("0" + t, width)
  }

  /** `json.dumps(..., ensure_ascii=False)` escapes by a dictionary with a formatted default. */
  function PythonEscape(c: char): string {
    if c in PYTHON_ESCAPES then PYTHON_ESCAPES[c]
    else if c < '\U{20}' then "\\u" + ZeroPad(Hex(c as int), 4)
    else [c]
  }

  const PYTHON_ESCAPES: map<char, string> :=
    map['\\' := "\\\\", '\"' := "\\\"", '\U{08}' := "\\b", '\U{0C}' := "\\f",
        '\n' := "\\n", '\r' := "\\r", '\t' := "\\t"]

  function PythonString(s: string): string {
    "\"" + Concat(seq(|s|, i requires 0 <= i < |s| => PythonEscape(s[i])), "") + "\""
  }

  /** `separator.join(parts)` */
  function Concat(parts: seq<string>, separator: string): string {
    if parts == [] then ""
    else if |parts| == 1 then parts[0]
    else parts[0] + separator + Concat(parts[1..], separator)
  }

  ghost function PythonKeys(m: map<string, Value>): (keys: seq<string>)
    ensures forall k :: k in keys <==> k in m
  {
    StringLessTotal();
    ListingIs(StringLess, m.Keys);
    Listing(StringLess, m.Keys)
  }

  /** `json.dumps(value, ensure_ascii=False, sort_keys=True, separators=(",", ":"))` */
  ghost function PythonText(v: Value): string {
    match v
    case Null => "null"
    case Bool(b) => if b then "true" else "false"
    case Number(n) => Integer(n)
    case Str(s) => PythonString(s)
    case Array(items) =>
      "[" + Concat(seq(|items|, i requires 0 <= i < |items| => PythonText(items[i])), ",") + "]"
    case Object(m) =>
      var keys := PythonKeys(m);
      "{" + Concat(seq(|keys|, i requires 0 <= i < |keys| =>
                       assert keys[i] in keys;
                       PythonString(keys[i]) + ":" + PythonText(m[keys[i]])), ",") + "}"
  }
}
