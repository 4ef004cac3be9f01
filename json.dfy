/** The part of `serde_json::Value` the core touches: lookups in an object, the typed
    accessors `as_u64`/`as_str`, and the compact text that `Display`/`to_string` produce. */
module Json {
  import opened Wrappers
  import opened Text

  /** A JSON value; numbers are integers (floating-point numbers are not modelled).
      An object keeps its entries in the map's iteration order. */
  datatype Value =
    | Null
    | Bool(b: bool)
    | Number(n: int)
    | String(s: string)
    | Array(items: seq<Value>)
    | Object(fields: seq<(string, Value)>)

  /** A `Map<String, Value>`: its entries in iteration order. */
  type Fields = seq<(string, Value)>

  predicate HasKey(fields: Fields, key: string) {
    exists i :: 0 <= i < |fields| && fields[i].0 == key
  }

  /** `Map::get`: the value stored under `key`, if any. */
  function Get(fields: Fields, key: string): Option<Value>
    decreases |fields|
  {
    if |fields| == 0 then None
    else if fields[0].0 == key then Some(fields[0].1)
    else Get(fields[1..], key)
  }

  /** `get` finds a value exactly when the key is present, and the value is stored
      under that key. */
  lemma {:induction false} GetSpec(fields: Fields, key: string)
    ensures Get(fields, key).Some? <==> HasKey(fields, key)
    ensures Get(fields, key).Some? ==> exists i :: 0 <= i < |fields| && fields[i] == (key, Get(fields, key).value)
    decreases |fields|
  {
    if |fields| > 0 && fields[0].0 != key {
      GetSpec(fields[1..], key);
      if HasKey(fields, key) {
        var i :| 0 <= i < |fields| && fields[i].0 == key;
        assert fields[1..][i - 1].0 == key;
      }
      if Get(fields, key).Some? {
        var i :| 0 <= i < |fields[1..]| && fields[1..][i] == (key, Get(fields, key).value);
        assert fields[i + 1] == (key, Get(fields, key).value);
      }
    } else if |fields| > 0 {
      assert fields[0] == (key, Get(fields, key).value);
    }
  }

  /** The first entry with `key` is the one `get` finds. */
  lemma {:induction false} GetAt(fields: Fields, i: nat, key: string)
    requires i < |fields| && fields[i].0 == key
    requires forall j :: 0 <= j < i ==> fields[j].0 != key
    ensures Get(fields, key) == Some(fields[i].1)
    decreases i
  {
    if i > 0 {
      GetAt(fields[1..], i - 1, key);
    }
  }

  /** `Value`'s index operator: `Null` unless `v` is an object holding `key`. */
  function At(v: Value, key: string): Value {
    if v.Object? && Get(v.fields, key).Some? then Get(v.fields, key).value else Null
  }

  /** `Value::as_u64`. */
  function AsU64(v: Value): Option<nat> {
    if v.Number? && 0 <= v.n < U64Limit then Some(v.n as nat) else None
  }

  /** `Value::as_str`. */
  function AsStr(v: Value): Option<string> {
    if v.String? then Some(v.s) else None
  }

  // ---------------------------------------------------------------- compact text

  function HexDigit(d: nat): char
    requires d < 16
  {
    "0123456789abcdef"[d]
  }

  /** One character of a JSON string literal, escaped the way serde_json writes it. */
  function EscapeChar(c: char): string {
    if c == '"' then "\\\""
    else if c == '\\' then "\\\\"
    else if c == '\n' then "\\n"
    else if c == '\r' then "\\r"
    else if c == '\t' then "\\t"
    else if c == 8 as char then "\\b"
    else if c == 12 as char then "\\f"
    else if (c as int) < 0x20 then "\\u00" + [HexDigit(c as int / 16), HexDigit(c as int % 16)]
    else [c]
  }

  function EscapeString(s: string): string
    decreases |s|
  {
    if |s| == 0 then "" else EscapeChar(s[0]) + EscapeString(s[1..])
  }

  function Quote(s: string): string {
    "\"" + EscapeString(s) + "\""
  }

  function IntToString(n: int): string {
    if n < 0 then "-" + NatToString(-n) else NatToString(n)
  }

  /** The compact JSON text of a value, as `Value::to_string` writes it. */
  function Show(v: Value): string
    decreases v, 1
  {
    match v
    case Null => "null"
    case Bool(b) => if b then "true" else "false"
    case Number(n) => IntToString(n)
    case String(s) => Quote(s)
    case Array(items) => "[" + ShowItems(items) + "]"
    case Object(fields) => "{" + ShowFields(fields) + "}"
  }

  function ShowItems(items: seq<Value>): string
    decreases items, 0
  {
    if |items| == 0 then ""
    else Show(items[0]) + (if |items| == 1 then "" else "," + ShowItems(items[1..]))
  }

  function ShowFields(fields: Fields): string
    decreases fields, 0
  {
    if |fields| == 0 then ""
    else
      var entry := fields[0];
      assert entry in fields && entry.1 < entry;
      Quote(entry.0) + ":" + Show(entry.1)
      + (if |fields| == 1 then "" else "," + ShowFields(fields[1..]))
  }

  predicate Plain(s: string) {
    forall i :: 0 <= i < |s| ==> s[i] != '"' && s[i] != '\\' && (s[i] as int) >= 0x20
  }

  /** A string with nothing to escape is written between quotes as it is. */
  lemma {:induction false} QuotePlain(s: string)
    requires Plain(s)
    ensures Show(String(s)) == "\"" + s + "\""
    decreases |s|
  {
    EscapePlain(s);
  }

  lemma {:induction false} EscapePlain(s: string)
    requires Plain(s)
    ensures EscapeString(s) == s
    decreases |s|
  {
    if |s| > 0 {
      EscapePlain(s[1..]);
      assert [s[0]] + s[1..] == s;
    }
  }
}
