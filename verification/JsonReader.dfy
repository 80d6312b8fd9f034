/**
 A reader for canonical JSON text and the round trip: it recovers every value from the text the
 Rust printer gives it, so the text determines the value.
 */
module JsonReader {
  import opened Ordering
  import opened Utf8
  import opened CanonicalJson

  datatype Parsed<+T> = Parsed(value: T, rest: string) | Failed

  // ----- the reader -----

  predicate StartsWith(t: string, word: string) {
    |word| <= |t| && t[..|word|] == word
  }

  predicate IsDigit(c: char) { '0' <= c <= '9' }

  function ReadDigits(acc: nat, t: string): (r: (nat, string))
    ensures |r.1| <= |t|
    decreases |t|
  {
    if t != [] && IsDigit(t[0]) then ReadDigits(10 * acc + (t[0] as int - '0' as int), t[1..]) else (acc, t)
  }

  function ReadInteger(t: string): (r: Parsed<Value>)
    ensures r.Parsed? ==> |r.rest| < |t|
  {
    if t != [] && IsDigit(t[0]) then
      var (n, rest) := ReadDigits(t[0] as int - '0' as int, t[1..]);
      Parsed(Number(n), rest)
    else if |t| > 1 && t[0] == '-' && IsDigit(t[1]) then
      var (n, rest) := ReadDigits(t[1] as int - '0' as int, t[2..]);
      Parsed(Number(-(n as int)), rest)
    else Failed
  }

  function HexValue(c: char): (n: nat)
    ensures n < 16
  {
    if '0' <= c <= '9' then c as int - '0' as int
    else if 'a' <= c <= 'f' then c as int - 'a' as int + 10
    else 0
  }

  /** The character an escape sequence stands for, after its backslash. */
  function ReadEscape(t: string): (r: Parsed<char>)
    ensures r.Parsed? ==> |r.rest| < |t|
  {
    if t == [] then Failed
    else match t[0]
      case '\"' => Parsed('\"', t[1..])
      case '\\' => Parsed('\\', t[1..])
      case 'b' => Parsed('\U{08}', t[1..])
      case 'f' => Parsed('\U{0C}', t[1..])
      case 'n' => Parsed('\n', t[1..])
      case 'r' => Parsed('\r', t[1..])
      case 't' => Parsed('\t', t[1..])
      case 'u' => if |t| >= 5 then Parsed((16 * HexValue(t[3]) + HexValue(t[4])) as char, t[5..]) else Failed
      case _ => Failed
  }

  /** Characters up to and including the closing quote. */
  function ReadString(t: string): (r: Parsed<string>)
    ensures r.Parsed? ==> |r.rest| < |t|
    decreases |t|
  {
    if t == [] then Failed
    else if t[0] == '\"' then Parsed("", t[1..])
    else
      var first := if t[0] == '\\' then ReadEscape(t[1..]) else Parsed(t[0], t[1..]);
      if first.Failed? then Failed else
      match ReadString(first.rest)
      case Failed => Failed
      case Parsed(s, rest) => Parsed([first.value] + s, rest)
  }

  function ReadWord(word: string, v: Value, t: string): Parsed<Value> {
    if StartsWith(t, word) then Parsed(v, t[|word|..]) else Failed
  }

  function ReadValue(t: string): (r: Parsed<Value>)
    ensures r.Parsed? ==> |r.rest| < |t|
    decreases |t|, 0
  {
    if t == [] then Failed
    else if t[0] == 'n' then ReadWord("null", Null, t)
    else if t[0] == 't' then ReadWord("true", Bool(true), t)
    else if t[0] == 'f' then ReadWord("false", Bool(false), t)
    else if t[0] == '\"' then
      (match ReadString(t[1..]) case Failed => Failed case Parsed(s, rest) => Parsed(Str(s), rest))
    else if t[0] == '[' then
      if StartsWith(t[1..], "]") then Parsed(Array([]), t[2..]) else
      (match ReadItems(t[1..]) case Failed => Failed case Parsed(items, rest) => Parsed(Array(items), rest))
    else if t[0] == '{' then
      if StartsWith(t[1..], "}") then Parsed(Object(map[]), t[2..]) else
      (match ReadFields(t[1..]) case Failed => Failed case Parsed(m, rest) => Parsed(Object(m), rest))
    else ReadInteger(t)
  }

  function ReadItems(t: string): (r: Parsed<seq<Value>>)
    ensures r.Parsed? ==> |r.rest| < |t|
    decreases |t|, 1
  {
    match ReadValue(t)
    case Failed => Failed
    case Parsed(v, rest) =>
      if StartsWith(rest, "]") then Parsed([v], rest[1..])
      else if !StartsWith(rest, ",") then Failed
      else match ReadItems(rest[1..])
        case Failed => Failed
        case Parsed(vs, rest') => Parsed([v] + vs, rest')
  }

  function ReadFields(t: string): (r: Parsed<map<string, Value>>)
    ensures r.Parsed? ==> |r.rest| < |t|
    decreases |t|, 1
  {
    if !StartsWith(t, "\"") then Failed else
    match ReadString(t[1..])
    case Failed => Failed
    case Parsed(k, afterKey) =>
      if !StartsWith(afterKey, ":") then Failed else
      match ReadValue(afterKey[1..])
      case Failed => Failed
      case Parsed(v, rest) =>
        if StartsWith(rest, "}") then Parsed(map[k := v], rest[1..])
        else if !StartsWith(rest, ",") then Failed
        else match ReadFields(rest[1..])
          case Failed => Failed
          case Parsed(m, rest') => Parsed(map[k := v] + m, rest')
  }

  // ----- round trip -----

  /** What may follow a value: anything that does not prolong a number. */
  predicate Delimited(rest: string) {
    rest == [] || !IsDigit(rest[0])
  }

  lemma {:induction false} DigitsRoundTrip(n: nat, t: string)
    ensures ReadDigits(0, Decimal(n) + t) == ReadDigits(n, t)
  {
    if n < 10 {
      assert (Decimal(n) + t)[1..] == t;
    } else {
      DigitsRoundTrip(n / 10, [Digit(n % 10)] + t);
      assert Decimal(n) + t == Decimal(n / 10) + ([Digit(n % 10)] + t);
      assert ([Digit(n % 10)] + t)[1..] == t;
    }
  }

  lemma IntegerRoundTrip(n: int, rest: string)
    requires Delimited(rest)
    ensures ReadInteger(Integer(n) + rest) == Parsed(Number(n), rest)
  {
    var magnitude := if n < 0 then -n else n;
    DigitsRoundTrip(magnitude, rest);
    var t := Decimal(magnitude) + rest;
    assert IsDigit(t[0]);
    if n < 0 {
      assert Integer(n) + rest == ['-'] + t;
      assert (Integer(n) + rest)[2..] == t[1..];
    }
  }

  lemma EscapeRoundTrip(c: char, t: string)
    ensures RustEscape(c) != [] && RustEscape(c)[0] != '\"'
    ensures RustEscape(c)[0] == '\\' ==> ReadEscape(RustEscape(c)[1..] + t) == Parsed(c, t)
    ensures RustEscape(c)[0] != '\\' ==> RustEscape(c) == [c]
  {
    var e := RustEscape(c);
    if e[0] == '\\' {
      var u := e[1..] + t;
      if |e| == 2 {
        assert u[1..] == t;
      } else {
        assert u[5..] == t;
        assert HexValue(HexDigit(c as int / 16)) == c as int / 16;
        assert HexValue(HexDigit(c as int % 16)) == c as int % 16;
      }
    }
  }

  /** One escaped character in front of text the reader can read. */
  lemma CharStep(c: char, tail: string, s: string, rest: string)
    requires ReadString(tail) == Parsed(s, rest)
    ensures ReadString(RustEscape(c) + tail) == Parsed([c] + s, rest)
  {
    hide RustEscape, ReadEscape;
    var e := RustEscape(c);
    EscapeRoundTrip(c, tail);
    var t := e + tail;
    assert t[0] == e[0];
    if e[0] == '\\' {
      assert t[1..] == e[1..] + tail;
    } else {
      assert t[1..] == tail;
    }
  }

  lemma {:induction false} StringRoundTrip(s: string, rest: string)
    ensures ReadString(RustEscapeAll(s) + "\"" + rest) == Parsed(s, rest)
  {
    hide RustEscape, ReadString;
    if s == [] {
      QuoteStep(rest);
      assert RustEscapeAll(s) + "\"" + rest == "\"" + rest;
    } else {
      var tail := RustEscapeAll(s[1..]) + "\"" + rest;
      StringRoundTrip(s[1..], rest);
      CharStep(s[0], tail, s[1..], rest);
      assert RustEscapeAll(s) + "\"" + rest == RustEscape(s[0]) + tail;
      assert [s[0]] + s[1..] == s;
    }
  }

  lemma QuoteStep(rest: string)
    ensures ReadString("\"" + rest) == Parsed("", rest)
  {
    assert ("\"" + rest)[1..] == rest;
  }

  /** The first character of a value's text, by which the reader chooses. */
  lemma Lead(v: Value)
    ensures RustText(v) != []
    ensures RustText(v)[0] !in {']', '}', ',', ':'}
    ensures match v {
      case Null => RustText(v)[0] == 'n'
      case Bool(b) => RustText(v)[0] == (if b then 't' else 'f')
      case Number(_) => IsDigit(RustText(v)[0]) || RustText(v)[0] == '-'
      case Str(_) => RustText(v)[0] == '\"'
      case Array(_) => RustText(v)[0] == '['
      case Object(_) => RustText(v)[0] == '{'
    }
  {
  }

  lemma WordStep(word: string, rest: string)
    ensures StartsWith(word + rest, word) && (word + rest)[|word|..] == rest
  {
  }

  lemma ArrayStep(body: string, items: seq<Value>, rest: string)
    requires body != [] && body[0] != ']'
    requires ReadItems(body) == Parsed(items, rest)
    ensures ReadValue("[" + body) == Parsed(Array(items), rest)
  {
    hide ReadItems, ReadFields, ReadString, ReadInteger, ReadWord;
    assert ("[" + body)[1..] == body;
  }

  lemma LastItemStep(t: string, v: Value, rest: string)
    requires ReadValue(t) == Parsed(v, "]" + rest)
    ensures ReadItems(t) == Parsed([v], rest)
  {
    hide ReadValue;
    WordStep("]", rest);
  }

  lemma NextItemStep(t: string, v: Value, tail: string, vs: seq<Value>, rest: string)
    requires ReadValue(t) == Parsed(v, "," + tail)
    requires ReadItems(tail) == Parsed(vs, rest)
    ensures ReadItems(t) == Parsed([v] + vs, rest)
  {
    hide ReadValue;
    WordStep(",", tail);
  }

  lemma ObjectStep(body: string, m: map<string, Value>, rest: string)
    requires body != [] && body[0] != '}'
    requires ReadFields(body) == Parsed(m, rest)
    ensures ReadValue("{" + body) == Parsed(Object(m), rest)
  {
    hide ReadFields;
    var t := "{" + body;
    assert t[0] == '{' && t[1..] == body;
    assert !StartsWith(body, "}");
    assert ReadValue(t) == match ReadFields(t[1..]) case Failed => Failed case Parsed(m, rest) => Parsed(Object(m), rest);
  }

  lemma LastFieldStep(k: string, text: string, v: Value, rest: string)
    requires ReadValue(text) == Parsed(v, "}" + rest)
    ensures ReadFields(RustString(k) + ":" + text) == Parsed(map[k := v], rest)
  {
    hide ReadValue, ReadString, RustEscapeAll;
    FieldStep(k, text);
    WordStep("}", rest);
  }

  lemma NextFieldStep(k: string, text: string, v: Value, tail: string, m: map<string, Value>, rest: string)
    requires ReadValue(text) == Parsed(v, "," + tail)
    requires ReadFields(tail) == Parsed(m, rest)
    ensures ReadFields(RustString(k) + ":" + text) == Parsed(map[k := v] + m, rest)
  {
    hide ReadValue, ReadString, RustEscapeAll;
    FieldStep(k, text);
    WordStep(",", tail);
  }

  lemma FieldStep(k: string, text: string)
    ensures var t := RustString(k) + ":" + text;
      StartsWith(t, "\"") && ReadString(t[1..]) == Parsed(k, ":" + text)
      && StartsWith(":" + text, ":") && (":" + text)[1..] == text
  {
    hide ReadString, RustEscapeAll;
    var t := RustString(k) + ":" + text;
    StringRoundTrip(k, ":" + text);
    assert t[1..] == RustEscapeAll(k) + "\"" + (":" + text);
    WordStep(":", text);
  }

  lemma NumberRoundTrip(n: int, rest: string)
    requires Delimited(rest)
    ensures ReadValue(Integer(n) + rest) == Parsed(Number(n), rest)
  {
    hide ReadInteger;
    IntegerRoundTrip(n, rest);
    var t := Integer(n) + rest;
    assert IsDigit(t[0]) || t[0] == '-';
  }

  lemma StrRoundTrip(s: string, rest: string)
    ensures ReadValue(RustString(s) + rest) == Parsed(Str(s), rest)
  {
    hide ReadString, RustEscapeAll;
    StringRoundTrip(s, rest);
    var t := RustString(s) + rest;
    assert t[0] == '\"' && t[1..] == RustEscapeAll(s) + "\"" + rest;
  }

  lemma WordsRoundTrip(rest: string)
    ensures ReadValue("null" + rest) == Parsed(Null, rest)
    ensures ReadValue("true" + rest) == Parsed(Bool(true), rest)
    ensures ReadValue("false" + rest) == Parsed(Bool(false), rest)
  {
    WordStep("null", rest);
    WordStep("true", rest);
    WordStep("false", rest);
  }

  lemma {:induction false} TextRoundTrip(v: Value, rest: string)
    requires Delimited(rest)
    ensures ReadValue(RustText(v) + rest) == Parsed(v, rest)
    decreases v, 2
  {
    hide ReadValue, RustItems, RustFields, RustString, Integer;
    match v
    case Null => WordsRoundTrip(rest);
    case Bool(b) => WordsRoundTrip(rest);
    case Number(n) => NumberRoundTrip(n, rest);
    case Str(s) => StrRoundTrip(s, rest);
    case Array(items) => ArrayRoundTrip(v, rest);
    case Object(m) => ObjectRoundTrip(v, rest);
  }

  lemma {:induction false} ArrayRoundTrip(v: Value, rest: string)
    requires v.Array?
    ensures ReadValue(RustText(v) + rest) == Parsed(v, rest)
    decreases v, 1
  {
    hide ReadItems;
    var body := RustItems(v.items) + "]" + rest;
    assert RustText(v) + rest == "[" + body;
    if v.items == [] {
      assert body == "]" + rest;
      WordStep("]", rest);
      assert ("[" + body)[1..] == body && ("[" + body)[2..] == rest;
    } else {
      Lead(v.items[0]);
      ItemsRoundTrip(v.items, rest);
      ArrayStep(body, v.items, rest);
    }
  }

  lemma {:induction false} ItemsRoundTrip(items: seq<Value>, rest: string)
    requires items != []
    ensures ReadItems(RustItems(items) + "]" + rest) == Parsed(items, rest)
    decreases items, 3
  {
    hide ReadValue, ReadItems, RustText;
    var t := RustItems(items) + "]" + rest;
    if |items| == 1 {
      TextRoundTrip(items[0], "]" + rest);
      assert t == RustText(items[0]) + ("]" + rest);
      LastItemStep(t, items[0], rest);
      assert items == [items[0]];
    } else {
      var tail := RustItems(items[1..]) + "]" + rest;
      TextRoundTrip(items[0], "," + tail);
      assert t == RustText(items[0]) + ("," + tail);
      ItemsRoundTrip(items[1..], rest);
      NextItemStep(t, items[0], tail, items[1..], rest);
      assert items == [items[0]] + items[1..];
    }
  }

  lemma {:induction false} ObjectRoundTrip(v: Value, rest: string)
    requires v.Object?
    ensures ReadValue(RustText(v) + rest) == Parsed(v, rest)
    decreases v, 1
  {
    hide ReadFields, ReadValue, RustFields;
    var keys := RustKeys(v.fields);
    if keys == [] {
      assert v.fields == map[] by { assert forall k :: k in v.fields ==> k in keys; }
      EmptyObject(v, rest);
    } else {
      var body := RustFields(v, keys) + "}" + rest;
      assert RustText(v) + rest == "{" + body;
      FieldsLead(v, keys);
      FieldsRoundTrip(v, keys, rest);
      assert Restrict(v.fields, keys) == v.fields;
      ObjectStep(body, v.fields, rest);
    }
  }

  lemma EmptyObject(v: Value, rest: string)
    requires v.Object? && RustKeys(v.fields) == []
    ensures ReadValue(RustText(v) + rest) == Parsed(Object(map[]), rest)
  {
    hide ReadFields;
    var t := RustText(v) + rest;
    assert RustText(v) == "{}";
    WordStep("}", rest);
    assert t[0] == '{' && t[1..] == "}" + rest && t[2..] == rest;
  }

  lemma FieldsLead(v: Value, keys: seq<string>)
    requires v.Object? && keys != [] && forall k :: k in keys ==> k in v.fields
    ensures RustFields(v, keys) != [] && RustFields(v, keys)[0] == '\"'
  {
  }

  ghost function Restrict(m: map<string, Value>, keys: seq<string>): map<string, Value> {
    map k | k in keys && k in m :: m[k]
  }

  lemma {:induction false} FieldsRoundTrip(v: Value, keys: seq<string>, rest: string)
    requires v.Object? && keys != [] && forall k :: k in keys ==> k in v.fields
    ensures ReadFields(RustFields(v, keys) + "}" + rest) == Parsed(Restrict(v.fields, keys), rest)
    decreases v, 0, |keys|
  {
    hide ReadValue, ReadFields, RustText, RustFields;
    var value := v.fields[keys[0]];
    if |keys| == 1 {
      TextRoundTrip(value, "}" + rest);
      LastFieldRoundTrip(v, keys, rest);
    } else {
      TextRoundTrip(value, "," + (RustFields(v, keys[1..]) + "}" + rest));
      FieldsRoundTrip(v, keys[1..], rest);
      NextFieldRoundTrip(v, keys, rest);
    }
  }

  lemma LastFieldRoundTrip(v: Value, keys: seq<string>, rest: string)
    requires v.Object? && |keys| == 1 && forall k :: k in keys ==> k in v.fields
    requires var value := v.fields[keys[0]]; ReadValue(RustText(value) + ("}" + rest)) == Parsed(value, "}" + rest)
    ensures ReadFields(RustFields(v, keys) + "}" + rest) == Parsed(Restrict(v.fields, keys), rest)
  {
    hide ReadValue, ReadFields, RustText, RustFields, RustString;
    var key, value := keys[0], v.fields[keys[0]];
    LastFieldStep(key, RustText(value) + ("}" + rest), value, rest);
    LastFieldText(v, keys, rest);
    RestrictCons(v.fields, keys);
    assert Restrict(v.fields, keys) == map[key := value];
  }

  lemma LastFieldText(v: Value, keys: seq<string>, rest: string)
    requires v.Object? && |keys| == 1 && forall k :: k in keys ==> k in v.fields
    ensures RustFields(v, keys) + "}" + rest
         == RustString(keys[0]) + ":" + (RustText(v.fields[keys[0]]) + ("}" + rest))
  {
    hide RustText, RustString;
    var key, text := RustString(keys[0]), RustText(v.fields[keys[0]]);
    assert RustFields(v, keys) == key + ":" + text;
    Regroup(key, ":", text, "}", rest);
  }

  lemma NextFieldRoundTrip(v: Value, keys: seq<string>, rest: string)
    requires v.Object? && |keys| > 1 && forall k :: k in keys ==> k in v.fields
    requires ReadFields(RustFields(v, keys[1..]) + "}" + rest) == Parsed(Restrict(v.fields, keys[1..]), rest)
    requires var value, tail := v.fields[keys[0]], RustFields(v, keys[1..]) + "}" + rest;
      ReadValue(RustText(value) + ("," + tail)) == Parsed(value, "," + tail)
    ensures ReadFields(RustFields(v, keys) + "}" + rest) == Parsed(Restrict(v.fields, keys), rest)
  {
    hide ReadValue, ReadFields, RustText, RustFields, RustString;
    var value, tail := v.fields[keys[0]], RustFields(v, keys[1..]) + "}" + rest;
    NextFieldStep(keys[0], RustText(value) + ("," + tail), value, tail, Restrict(v.fields, keys[1..]), rest);
    FieldsText(v, keys, rest);
    RestrictCons(v.fields, keys);
  }

  lemma FieldsText(v: Value, keys: seq<string>, rest: string)
    requires v.Object? && |keys| > 1 && forall k :: k in keys ==> k in v.fields
    ensures RustFields(v, keys) + "}" + rest
         == RustString(keys[0]) + ":" + (RustText(v.fields[keys[0]]) + ("," + (RustFields(v, keys[1..]) + "}" + rest)))
  {
    var key, text, more := RustString(keys[0]), RustText(v.fields[keys[0]]), RustFields(v, keys[1..]);
    assert RustFields(v, keys) == key + ":" + text + "," + more;
    RegroupMore(key, ":", text, ",", more, "}", rest);
  }

  lemma Regroup(a: string, b: string, c: string, d: string, e: string)
    ensures a + b + c + d + e == a + b + (c + (d + e))
  {
  }

  lemma RegroupMore(a: string, b: string, c: string, d: string, e: string, f: string, g: string)
    ensures a + b + c + d + e + f + g == a + b + (c + (d + (e + f + g)))
  {
    Regroup(a, b, c, d, e + f + g);
    assert a + b + c + d + e + f + g == a + b + c + d + (e + f + g);
  }

  lemma RestrictCons(m: map<string, Value>, keys: seq<string>)
    requires keys != [] && forall k :: k in keys ==> k in m
    ensures Restrict(m, keys) == map[keys[0] := m[keys[0]]] + Restrict(m, keys[1..])
  {
    assert keys == [keys[0]] + keys[1..];
  }

  function Read(t: string): Parsed<Value> {
    var r := ReadValue(t);
    if r.Parsed? && r.rest == [] then r else Failed
  }

  /** The reader recovers every value from its canonical text. */
  lemma CanonicalRoundTrip(v: Value)
    ensures Read(RustText(v)) == Parsed(v, "")
  {
    TextRoundTrip(v, "");
    assert RustText(v) + "" == RustText(v);
  }

  /** Two values print alike exactly when they are equal. */
  lemma CanonicalTextInjective(v: Value, w: Value)
    ensures RustText(v) == RustText(w) <==> v == w
  {
    CanonicalRoundTrip(v);
    CanonicalRoundTrip(w);
  }

  // ----- agreement of the two printers -----

  lemma ZeroPadded(t: string)
    requires |t| == 1 || |t| == 2
    ensures ZeroPad(t, 4) == (if |t| == 1 then "000" else "00") + t
  {
    assert "0" + ("0" + t) == "00" + t;
    if |t| == 1 {
      assert "0" + ("00" + t) == "000" + t;
      assert ZeroPad("000" + t, 4) == "000" + t;
      assert ZeroPad("00" + t, 4) == ZeroPad("000" + t, 4);
      assert ZeroPad("0" + t, 4) == ZeroPad("00" + t, 4);
    } else {
      assert ZeroPad(t, 4) == ZeroPad("0" + t, 4);
    }
  }

  lemma EscapesAgree(c: char)
    ensures PythonEscape(c) == RustEscape(c)
  {
    if c < ' ' && c !in PYTHON_ESCAPES {
      var n := c as int;
      assert n >= 16 ==> Hex(n) == [HexDigit(n / 16)] + [HexDigit(n % 16)];
      ZeroPadded(Hex(n));
    }
  }

  lemma {:induction false} EscapedAgree(s: string)
    ensures Concat(seq(|s|, i requires 0 <= i < |s| => PythonEscape(s[i])), "") == RustEscapeAll(s)
  {
    hide PythonEscape, RustEscape;
    var parts := seq(|s|, i requires 0 <= i < |s| => PythonEscape(s[i]));
    if s != [] {
      EscapesAgree(s[0]);
      EscapedAgree(s[1..]);
      assert parts[1..] == seq(|s[1..]|, i requires 0 <= i < |s[1..]| => PythonEscape(s[1..][i]));
    }
  }

  lemma StringsAgree(s: string)
    ensures PythonString(s) == RustString(s)
  {
    EscapedAgree(s);
  }

  lemma KeysAgree(m: map<string, Value>)
    ensures PythonKeys(m) == RustKeys(m)
  {
    ByteLessTotal();
    StringLessTotal();
    forall a: string, b: string ensures ByteLess(a, b) == StringLess(a, b) {
      ByteOrderIsCodePointOrder(a, b);
    }
    SameOrderSameListing(ByteLess, StringLess, m.Keys);
  }

  /** The Python agents and the Rust services print every value alike. */
  lemma {:induction false} PrintersAgree(v: Value)
    ensures PythonText(v) == RustText(v)
    decreases v, 2
  {
    match v
    case Null =>
    case Bool(_) =>
    case Number(_) =>
    case Str(s) => StringsAgree(s);
    case Array(items) => ItemsAgree(items);
    case Object(m) =>
      KeysAgree(m);
      FieldsAgree(v, RustKeys(m));
  }

  ghost function PythonItems(items: seq<Value>): seq<string> {
    seq(|items|, i requires 0 <= i < |items| => PythonText(items[i]))
  }

  lemma {:induction false} ItemsAgree(items: seq<Value>)
    ensures Concat(PythonItems(items), ",") == RustItems(items)
    decreases items, 1
  {
    if items != [] {
      PrintersAgree(items[0]);
      ItemsAgree(items[1..]);
      assert PythonItems(items)[1..] == PythonItems(items[1..]);
    }
  }

  ghost function PythonFields(m: map<string, Value>, keys: seq<string>): seq<string>
    requires forall k :: k in keys ==> k in m
  {
    seq(|keys|, i requires 0 <= i < |keys| =>
          assert keys[i] in keys;
          PythonString(keys[i]) + ":" + PythonText(m[keys[i]]))
  }

  lemma {:induction false} FieldsAgree(v: Value, keys: seq<string>)
    requires v.Object? && forall k :: k in keys ==> k in v.fields
    ensures Concat(PythonFields(v.fields, keys), ",") == RustFields(v, keys)
    decreases v, 1, |keys|
  {
    if keys != [] {
      StringsAgree(keys[0]);
      PrintersAgree(v.fields[keys[0]]);
      FieldsAgree(v, keys[1..]);
      assert PythonFields(v.fields, keys)[1..] == PythonFields(v.fields, keys[1..]);
    }
  }
}
