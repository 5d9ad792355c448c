/**
 * Parsed JSON as the Gson tree hands it over (`JsonElement` and its kinds), the accessors the
 * loaders call on it, and `JsonElement.toString`, which writes the element back as JSON text.
 * The parser itself is not modelled: loaders receive an already parsed tree.
 */
module JsonValues {
  import opened Wrappers
  import opened Model

  /**
   * A JSON element. A number keeps both its value and the text it was read from (Gson keeps
   * numbers lazily, as text). An object's members are in document order.
   */
  datatype Json =
    | JNull
    | JBool(b: bool)
    | JNumber(value: real, text: string)
    | JString(s: string)
    | JArray(elements: seq<Json>)
    | JObject(members: seq<(string, Json)>)

  /** No key appears twice: what Gson's object representation guarantees. */
  predicate DistinctKeys(ms: seq<(string, Json)>)
  {
    forall i, j :: 0 <= i < j < |ms| ==> ms[i].0 != ms[j].0
  }

  /** `JsonObject.get(key)`: the member's value, None (Java null) when the key is absent. */
  function Get(ms: seq<(string, Json)>, key: string): (r: Option<Json>)
    ensures r.None? <==> forall i :: 0 <= i < |ms| ==> ms[i].0 != key
    ensures r.Some? ==> (key, r.value) in ms
    ensures r.Some? && DistinctKeys(ms) ==> forall i :: 0 <= i < |ms| && ms[i].0 == key ==> ms[i].1 == r.value
  {
    if ms == [] then None
    else if ms[0].0 == key then Some(ms[0].1)
    else
      var r := Get(ms[1..], key);
      assert forall i :: 1 <= i < |ms| ==> ms[i] == ms[1..][i - 1];
      r
  }

  /** `getAsString()`: strings, numbers (their text) and booleans, or a one-element array of those; anything else throws. */
  function AsString(j: Json): Result<string, Failure>
  {
    match j
    case JString(s) => Ok(s)
    case JNumber(_, text) => Ok(text)
    case JBool(b) => Ok(if b then "true" else "false")
    case JArray(es) => if |es| == 1 then AsString(es[0]) else Err(Malformed)
    case _ => Err(Malformed)
  }

  /** `getAsDouble()`: a number's value, or that of a one-element array; anything else throws. */
  function AsDouble(j: Json): Result<real, Failure>
  {
    match j
    case JNumber(v, _) => Ok(v)
    case JArray(es) => if |es| == 1 then AsDouble(es[0]) else Err(Malformed)
    case _ => Err(Malformed)
  }

  /** `getAsJsonObject()`: the members of an object; anything else throws. */
  function AsObject(j: Json): Result<seq<(string, Json)>, Failure>
  {
    if j.JObject? then Ok(j.members) else Err(Malformed)
  }

  // ---------------------------------------------------------------- writing JSON text

  function HexDigit(d: int): (c: char)
    requires 0 <= d < 16
  {
    if d < 10 then (48 + d) as char else (87 + d) as char
  }

  /** The value of a hexadecimal digit, either case. */
  function HexValue(c: char): (r: Option<int>)
    ensures r.Some? ==> 0 <= r.value < 16
  {
    if '0' <= c <= '9' then Some(c as int - 48)
    else if 'a' <= c <= 'f' then Some(c as int - 87)
    else if 'A' <= c <= 'F' then Some(c as int - 55)
    else None
  }

  /** Four lower-case hexadecimal digits, most significant first. */
  function Hex4(n: int): (s: string)
    requires 0 <= n < 0x1_0000
    ensures |s| == 4
  {
    [HexDigit(n / 16 / 16 / 16), HexDigit(n / 16 / 16 % 16), HexDigit(n / 16 % 16), HexDigit(n % 16)]
  }

  /** Gson's `JsonWriter` escape for one character (the default, not HTML-safe). */
  function EscapeChar(c: char): (s: string)
    ensures |s| >= 1
  {
    if c == '"' then "\\\""
    else if c == '\\' then "\\\\"
    else if c == '\t' then "\\t"
    else if c == '\U{8}' then "\\b"
    else if c == '\n' then "\\n"
    else if c == '\r' then "\\r"
    else if c == '\U{c}' then "\\f"
    else if c < ' ' || c == '\U{2028}' || c == '\U{2029}' then "\\u" + Hex4(c as int)
    else [c]
  }

  function Escape(s: string): string
  {
    if s == [] then [] else EscapeChar(s[0]) + Escape(s[1..])
  }

  /** A JSON string literal: the escaped text between double quotes. */
  function Quote(s: string): (q: string)
    ensures |q| >= 2 && q[0] == '"' && q[|q| - 1] == '"'
  {
    "\"" + Escape(s) + "\""
  }

  function Join(parts: seq<string>): string
  {
    if parts == [] then ""
    else if |parts| == 1 then parts[0]
    else parts[0] + "," + Join(parts[1..])
  }

  /** `JsonElement.toString()`: the element as compact JSON text. */
  function Serialize(j: Json): string
  {
    match j
    case JNull => "null"
    case JBool(b) => if b then "true" else "false"
    case JNumber(_, text) => text
    case JString(s) => Quote(s)
    case JArray(es) => "[" + Join(seq(|es|, i requires 0 <= i < |es| => Serialize(es[i]))) + "]"
    case JObject(ms) =>
      "{" + Join(seq(|ms|, i requires 0 <= i < |ms| => Quote(ms[i].0) + ":" + Serialize(ms[i].1))) + "}"
  }

  // ---------------------------------------------------------------- reading escapes back

  function Prepend(c: char, rest: Option<string>): Option<string>
  {
    if rest.Some? then Some([c] + rest.value) else None
  }

  /** The character a one-letter escape stands for. */
  function SimpleEscape(c: char): Option<char>
  {
    if c == '"' then Some('"')
    else if c == '\\' then Some('\\')
    else if c == '/' then Some('/')
    else if c == 't' then Some('\t')
    else if c == 'b' then Some('\U{8}')
    else if c == 'n' then Some('\n')
    else if c == 'r' then Some('\r')
    else if c == 'f' then Some('\U{c}')
    else None
  }

  /** The text a JSON string body stands for, or None when an escape is malformed. */
  function Unescape(s: string): Option<string>
    decreases |s|
  {
    if s == [] then Some([])
    else if s[0] != '\\' then Prepend(s[0], Unescape(s[1..]))
    else if |s| >= 2 && SimpleEscape(s[1]).Some? then Prepend(SimpleEscape(s[1]).value, Unescape(s[2..]))
    else if |s| >= 6 && s[1] == 'u'
      && HexValue(s[2]).Some? && HexValue(s[3]).Some? && HexValue(s[4]).Some? && HexValue(s[5]).Some? then
      var v := ((HexValue(s[2]).value * 16 + HexValue(s[3]).value) * 16 + HexValue(s[4]).value) * 16 + HexValue(s[5]).value;
      if 0xD800 <= v < 0xE000 then None else Prepend(v as char, Unescape(s[6..]))
    else None
  }

  lemma Hex4Value(n: int)
    requires 0 <= n < 0x1_0000
    ensures forall k :: 0 <= k < 4 ==> HexValue(Hex4(n)[k]).Some?
    ensures ((HexValue(Hex4(n)[0]).value * 16 + HexValue(Hex4(n)[1]).value) * 16
             + HexValue(Hex4(n)[2]).value) * 16 + HexValue(Hex4(n)[3]).value == n
  {
    var q1 := n / 16;
    var q2 := q1 / 16;
    var q3 := q2 / 16;
    assert n == 16 * q1 + n % 16;
    assert q1 == 16 * q2 + q1 % 16;
    assert q2 == 16 * q3 + q2 % 16;
  }

  lemma UnescapePlain(c: char, t: string)
    requires c != '\\'
    ensures Unescape([c] + t) == Prepend(c, Unescape(t))
  {
    assert ([c] + t)[1..] == t;
  }

  lemma UnescapeSimple(e: char, c: char, t: string)
    requires SimpleEscape(e) == Some(c)
    ensures Unescape(['\\', e] + t) == Prepend(c, Unescape(t))
  {
    assert (['\\', e] + t)[2..] == t;
  }

  lemma UnescapeUnicode(c: char, t: string)
    requires (c as int) < 0xD800
    ensures Unescape("\\u" + Hex4(c as int) + t) == Prepend(c, Unescape(t))
  {
    var s := "\\u" + Hex4(c as int) + t;
    Hex4Value(c as int);
    assert s[2..6] == Hex4(c as int);
    assert s[6..] == t;
  }

  lemma UnescapeStep(c: char, t: string)
    ensures Unescape(EscapeChar(c) + t) == Prepend(c, Unescape(t))
  {
    if c == '"' {
      UnescapeSimple('"', c, t);
    } else if c == '\\' {
      UnescapeSimple('\\', c, t);
    } else if c == '\t' {
      UnescapeSimple('t', c, t);
    } else if c == '\U{8}' {
      UnescapeSimple('b', c, t);
    } else if c == '\n' {
      UnescapeSimple('n', c, t);
    } else if c == '\r' {
      UnescapeSimple('r', c, t);
    } else if c == '\U{c}' {
      UnescapeSimple('f', c, t);
    } else if c < ' ' || c == '\U{2028}' || c == '\U{2029}' {
      UnescapeUnicode(c, t);
    } else {
      UnescapePlain(c, t);
    }
  }

  /** Unescaping undoes Gson's escaping: the written string literal denotes the original text. */
  lemma {:induction false} UnescapeEscape(s: string)
    ensures Unescape(Escape(s)) == Some(s)
    decreases |s|
  {
    if s != [] {
      UnescapeEscape(s[1..]);
      UnescapeStep(s[0], Escape(s[1..]));
      assert s == [s[0]] + s[1..];
    }
  }

  /** A written JSON string: quotes around a body that unescapes to the original text. */
  lemma SerializeStringRoundTrip(s: string)
    ensures Serialize(JString(s))[0] == '"' && Serialize(JString(s))[|Serialize(JString(s))| - 1] == '"'
    ensures Unescape(Serialize(JString(s))[1..|Serialize(JString(s))| - 1]) == Some(s)
  {
    var q := Serialize(JString(s));
    assert q[1..|q| - 1] == Escape(s);
    UnescapeEscape(s);
  }

  /** A character Gson writes as itself. */
  predicate Plain(c: char)
  {
    c != '"' && c != '\\' && ' ' <= c && c != '\U{2028}' && c != '\U{2029}'
  }

  /** Text made of plain characters (an ISO date, say) is written unchanged: the literal is the text between two quote characters. */
  lemma {:induction false} EscapePlain(s: string)
    requires forall i :: 0 <= i < |s| ==> Plain(s[i])
    ensures Escape(s) == s
    ensures Serialize(JString(s)) == "\"" + s + "\""
    decreases |s|
  {
    if s != [] {
      EscapePlain(s[1..]);
      assert s == [s[0]] + s[1..];
    }
  }
}
