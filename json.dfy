/**
 * JSON values as Python's `json` module hands them to the programs: objects
 * are member lists (a decoded dict keeps the last value of a repeated key),
 * numbers are integers. `Emit` writes a value in the shape `json.dumps`
 * produces with its defaults (separators ", " and ": ", non-ASCII escaped);
 * it is the reference serialization the framing proofs are stated against.
 */
module Json {
  import opened Text

  datatype Json =
    | JNull
    | JBool(b: bool)
    | JNum(n: int)
    | JStr(s: string)
    | JArr(items: seq<Json>)
    | JObj(members: seq<Member>)

  datatype Member = Member(key: string, value: Json)

  /** A decoded JSON object. */
  type JObject = seq<Member>

  /** `obj.get(key)`: the value of the last member with that key. */
  function Get(obj: JObject, key: string): Option<Json> {
    if obj == [] then None
    else if obj[|obj| - 1].key == key then Some(obj[|obj| - 1].value)
    else Get(obj[..|obj| - 1], key)
  }

  /** `get` finds a key exactly when some member has it, and then returns the value of the last such member. */
  lemma {:induction false} GetSpec(obj: JObject, key: string)
    ensures Get(obj, key).None? <==> forall i :: 0 <= i < |obj| ==> obj[i].key != key
    ensures Get(obj, key).Some? ==>
      exists i :: 0 <= i < |obj| && obj[i] == Member(key, Get(obj, key).value) && forall j :: i < j < |obj| ==> obj[j].key != key
  {
    if obj != [] && obj[|obj| - 1].key != key {
      var p := obj[..|obj| - 1];
      GetSpec(p, key);
      assert forall i :: 0 <= i < |p| ==> p[i] == obj[i];
      if Get(p, key).Some? {
        var i :| 0 <= i < |p| && p[i] == Member(key, Get(p, key).value) && forall j :: i < j < |p| ==> p[j].key != key;
        assert obj[i] == p[i];
        assert forall j :: i < j < |obj| ==> obj[j].key != key;
      }
    }
  }

  /** Python truthiness of a decoded value. */
  predicate Truthy(v: Json) {
    match v
    case JNull => false
    case JBool(b) => b
    case JNum(n) => n != 0
    case JStr(s) => s != ""
    case JArr(items) => items != []
    case JObj(members) => members != []
  }

  /** Four lower-case hexadecimal digits, as `"\\u{0:04x}"` writes them. */
  function Hex4(n: nat): (r: string)
    requires n < 0x10000
    ensures |r| == 4
  {
    var digits := "0123456789abcdef";
    [digits[n / 4096], digits[(n / 256) % 16], digits[(n / 16) % 16], digits[n % 16]]
  }

  /** The escape of one character inside a JSON string (`ensure_ascii=True`). */
  function EscapeChar(c: char): string {
    var n := c as int;
    if c == '"' then "\\\""
    else if c == '\\' then "\\\\"
    else if c == '\n' then "\\n"
    else if c == '\r' then "\\r"
    else if c == '\t' then "\\t"
    else if n == 8 then "\\b"
    else if n == 12 then "\\f"
    else if ' ' <= c <= '~' then [c]
    else if n < 0x10000 then "\\u" + Hex4(n)
    else "\\u" + Hex4(0xD800 + (n - 0x10000) / 0x400) + "\\u" + Hex4(0xDC00 + (n - 0x10000) % 0x400)
  }

  function Escape(s: string): string {
    if s == [] then "" else EscapeChar(s[0]) + Escape(s[1..])
  }

  function Quote(s: string): string {
    "\"" + Escape(s) + "\""
  }

  function Emit(v: Json): string {
    match v
    case JNull => "null"
    case JBool(b) => if b then "true" else "false"
    case JNum(n) => IntToDecimal(n)
    case JStr(s) => Quote(s)
    case JArr(items) => "[" + EmitItems(items) + "]"
    case JObj(members) => "{" + EmitMembers(members) + "}"
  }

  function EmitItems(items: seq<Json>): string {
    if items == [] then ""
    else if |items| == 1 then Emit(items[0])
    else Emit(items[0]) + ", " + EmitItems(items[1..])
  }

  function EmitMember(m: Member): string {
    Quote(m.key) + ": " + Emit(m.value)
  }

  function EmitMembers(members: seq<Member>): string {
    if members == [] then ""
    else if |members| == 1 then EmitMember(members[0])
    else EmitMember(members[0]) + ", " + EmitMembers(members[1..])
  }

  /** The text of an object: what `json.dumps` writes for a dict. */
  function EmitObject(obj: JObject): (r: string)
    ensures |r| >= 2 && r[0] == '{' && r[|r| - 1] == '}'
  {
    Emit(JObj(obj))
  }
}
