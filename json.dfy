/**
 * JSON values as Python's `json.loads` hands them to the backend and as the editor stores them:
 * Tiptap documents, mark lists, request bodies. A dict is an association list read at its first
 * binding (a dict's keys are distinct, so the first binding is the only one).
 */
module JsonValue {
  import opened Wrappers
  import opened Text

  datatype Json =
    | JNull
    | JBool(b: bool)
    | JNum(n: int)
    | JStr(s: string)
    | JArr(elems: seq<Json>)
    | JObj(fields: seq<(string, Json)>)

  /** Index of the first binding of `key`, or None when the dict has no such key. */
  function Find(fields: seq<(string, Json)>, key: string): (r: Option<nat>)
    ensures r.Some? ==> r.value < |fields| && fields[r.value].0 == key
    ensures r.Some? ==> forall k :: 0 <= k < r.value ==> fields[k].0 != key
    ensures r.None? <==> forall k :: 0 <= k < |fields| ==> fields[k].0 != key
  {
    if fields == [] then None
    else if fields[0].0 == key then Some(0)
    else match Find(fields[1..], key)
      case None => None
      case Some(i) => Some(i + 1)
  }

  /** `key in d`. */
  predicate Has(fields: seq<(string, Json)>, key: string)
  {
    Find(fields, key).Some?
  }

  /** The Tiptap document the editor and the backend create for a plain piece of text. */
  function DocOf(text: string): Json
  {
    JObj([("type", JStr("doc")),
          ("content", JArr([JObj([("type", JStr("paragraph")),
                                  ("content", JArr([JObj([("type", JStr("text")), ("text", JStr(text))])]))])]))])
  }

  /** Python's `str(v)`, which is what an f-string inserts: a string as it is, anything else as `repr`. */
  function Str(v: Json): string
  {
    if v.JStr? then v.s else Repr(v)
  }

  /** Python's `repr(v)` of the value `json.loads` builds. */
  function Repr(v: Json): string
  {
    match v
    case JNull => "None"
    case JBool(b) => if b then "True" else "False"
    case JNum(n) => IntToString(n)
    case JStr(s) => QuoteString(s)
    case JArr(elems) =>
      "[" + JoinWith(", ", seq(|elems|, i requires 0 <= i < |elems| => Repr(elems[i]))) + "]"
    case JObj(fields) =>
      "{" + JoinWith(", ", seq(|fields|, i requires 0 <= i < |fields| =>
                                QuoteString(fields[i].0) + ": " + Repr(fields[i].1))) + "}"
  }

  /** Python's string `repr`: double quotes when the text has a single quote and no double quote. */
  function QuoteString(s: string): string
  {
    var q := if '\'' in s && '"' !in s then '"' else '\'';
    [q] + Escape(s, q) + [q]
  }

  function Escape(s: string, q: char): string
  {
    if s == [] then []
    else
      var c := s[0];
      var e :=
        if c == '\\' then "\\\\"
        else if c == q then ['\\', q]
        else if c == '\n' then "\\n"
        else if c == '\r' then "\\r"
        else if c == '\t' then "\\t"
        else if c < ' ' || c == '\U{7f}' then "\\x" + [HexDigit(c as int / 16), HexDigit(c as int % 16)]
        else [c];
      e + Escape(s[1..], q)
  }

  function HexDigit(d: nat): char
    requires d < 16
  {
    "0123456789abcdef"[d]
  }
}
