/**
 * The Tiptap JSON to LaTeX compiler. `compile` returns any value that is neither a list nor a
 * dict as it is; a list compiles to the concatenation of its compiled elements; a doc or
 * paragraph node compiles its content; a text node yields its text, wrapped by its marks.
 * Errors are the Python exceptions the code raises, in the order Python evaluates.
 */
module TiptapCompile {
  import opened Wrappers
  import opened Text
  import opened JsonValue

  /** The exceptions the compiler raises; `KeyError` carries the missing key. */
  datatype PyError = KeyError(key: Json) | ValueError(message: string) | TypeError

  datatype MarkKind = Bold | Italic | Underline | Link

  function Compile(ast: Json): (r: Result<Json, PyError>)
    ensures !ast.JArr? && !ast.JObj? ==> r == Ok(ast)
    decreases ast, 2
  {
    match ast
    case JArr(elems) => CompileList(elems)
    case JObj(fields) => CompileDict(fields)
    case _ => Ok(ast)
  }

  /**
   * `''.join([compile(a) for a in l])`: every element is compiled first, then the results are
   * joined. The result is the first exception an element raises, then a `TypeError` when some
   * element does not compile to a string, and otherwise the compiled strings concatenated in order.
   */
  function CompileList(l: seq<Json>): (r: Result<Json, PyError>)
    ensures r.Ok? <==> forall k :: 0 <= k < |l| ==> Compile(l[k]).Ok? && Compile(l[k]).value.JStr?
    ensures r.Ok? ==>
      r.value == JStr(Concat(seq(|l|, k requires 0 <= k < |l| && Compile(l[k]).Ok? => Str(Compile(l[k]).value))))
    ensures forall k :: 0 <= k < |l| && Compile(l[k]).Err? && (forall j :: 0 <= j < k ==> Compile(l[j]).Ok?) ==>
      r == Err(Compile(l[k]).error)
    ensures (forall k :: 0 <= k < |l| ==> Compile(l[k]).Ok?) && r.Err? ==> r.error == TypeError
    decreases l, 1
  {
    match CompileEach(l)
    case Err(e) => Err(e)
    case Ok(vs) =>
      assert seq(|vs|, k requires 0 <= k < |vs| => Str(vs[k]))
          == seq(|l|, k requires 0 <= k < |l| && Compile(l[k]).Ok? => Str(Compile(l[k]).value));
      JoinStrs(vs)
  }

  /** The list comprehension: the compiled elements in order, or the first exception raised. */
  function CompileEach(l: seq<Json>): (r: Result<seq<Json>, PyError>)
    ensures r.Ok? <==> forall k :: 0 <= k < |l| ==> Compile(l[k]).Ok?
    ensures r.Ok? ==> |r.value| == |l| && forall k :: 0 <= k < |l| ==> r.value[k] == Compile(l[k]).value
    ensures forall k :: 0 <= k < |l| && Compile(l[k]).Err? && (forall j :: 0 <= j < k ==> Compile(l[j]).Ok?) ==>
      r == Err(Compile(l[k]).error)
    decreases l, 0
  {
    if l == [] then Ok([])
    else
      assert forall k :: 0 < k < |l| ==> l[1..][k - 1] == l[k];
      match Compile(l[0])
      case Err(e) => Err(e)
      case Ok(v) =>
        match CompileEach(l[1..])
        case Err(e) => Err(e)
        case Ok(vs) => Ok([v] + vs)
  }

  /** `''.join(vs)`, which accepts only strings and concatenates them in order. */
  function JoinStrs(vs: seq<Json>): (r: Result<Json, PyError>)
    ensures r.Ok? <==> forall k :: 0 <= k < |vs| ==> vs[k].JStr?
    ensures r.Ok? ==> r.value == JStr(Concat(seq(|vs|, k requires 0 <= k < |vs| => Str(vs[k]))))
    ensures r.Err? ==> r.error == TypeError
  {
    if vs == [] then Ok(JStr(""))
    else if !vs[0].JStr? then Err(TypeError)
    else
      match JoinStrs(vs[1..])
      case Err(e) => Err(e)
      case Ok(rest) =>
        var strs := seq(|vs|, k requires 0 <= k < |vs| => Str(vs[k]));
        assert strs[1..] == seq(|vs[1..]|, k requires 0 <= k < |vs[1..]| => Str(vs[1..][k]));
        Ok(JStr(vs[0].s + rest.s))
  }

  /**
   * `compile_list(d['content'])` iterates whatever `content` is: a list gives its elements,
   * a string its characters (which compile to themselves), a dict its keys; anything else
   * is not iterable.
   */
  function CompileIterable(v: Json): (r: Result<Json, PyError>)
    ensures v.JArr? ==> r == CompileList(v.elems)
    ensures v.JStr? ==> r == Ok(v)
    ensures v.JObj? ==> r == Ok(JStr(Concat(seq(|v.fields|, i requires 0 <= i < |v.fields| => v.fields[i].0))))
    ensures !v.JArr? && !v.JStr? && !v.JObj? ==> r == Err(TypeError)
    decreases v, 3
  {
    match v
    case JArr(elems) => CompileList(elems)
    case JStr(_) => Ok(v)
    case JObj(fields) => Ok(JStr(Concat(seq(|fields|, i requires 0 <= i < |fields| => fields[i].0))))
    case _ => Err(TypeError)
  }

  function CompileDict(fields: seq<(string, Json)>): (r: Result<Json, PyError>)
    ensures Find(fields, "type").None? ==> r == Err(KeyError(JStr("type")))
    ensures Find(fields, "type").Some? ==>
      var ty := fields[Find(fields, "type").value].1;
      (ty == JStr("doc") || ty == JStr("paragraph") ==>
         if Has(fields, "content") then
           var content := fields[Find(fields, "content").value];
           assert content in fields;
           r == CompileIterable(content.1)
         else r == Err(KeyError(JStr("content"))))
      && (ty != JStr("doc") && ty != JStr("paragraph") && ty != JStr("text") ==> r == Err(ValueError("bad dict")))
      && (ty == JStr("text") && !Has(fields, "marks") ==>
            r == if Has(fields, "text") then Ok(fields[Find(fields, "text").value].1) else Err(KeyError(JStr("text"))))
      && (ty == JStr("text") && Has(fields, "marks") ==>
            var marks := fields[Find(fields, "marks").value].1;
            (StyleError(marks).Some? ==> r == Err(StyleError(marks).value))
            && (StyleError(marks).None? ==>
                  r == if Has(fields, "text") then ApplyMark(marks, fields[Find(fields, "text").value].1)
                       else Err(KeyError(JStr("text")))))
    decreases JObj(fields), 1
  {
    match Find(fields, "type")
    case None => Err(KeyError(JStr("type")))
    case Some(t) =>
      var ty := fields[t].1;
      if ty == JStr("doc") || ty == JStr("paragraph") then
        match Find(fields, "content")
        case None => Err(KeyError(JStr("content")))
        case Some(c) =>
          assert fields[c] in fields;
          CompileIterable(fields[c].1)
      else if ty != JStr("text") then Err(ValueError("bad dict"))
      else
        match Find(fields, "marks")
        case None =>
          (match Find(fields, "text")
           case None => Err(KeyError(JStr("text")))
           case Some(x) => Ok(fields[x].1))
        case Some(m) =>
          var marks := fields[m].1;
          // `style(d['marks'])` runs before `d['text']` is read.
          match StyleError(marks)
          case Some(e) => Err(e)
          case None =>
            match Find(fields, "text")
            case None => Err(KeyError(JStr("text")))
            case Some(x) => ApplyMark(marks, fields[x].1)
  }

  // ---------------------------------------------------------------------------------------
  // Marks.

  function KindName(k: MarkKind): string
  {
    match k
    case Bold => "bold"
    case Italic => "italic"
    case Underline => "underline"
    case Link => "link"
  }

  /** `table[marks['type']]`: a missing key, an unhashable type value, or an unknown type fails. */
  function MarkKindOf(mark: seq<(string, Json)>): (r: Result<MarkKind, PyError>)
    ensures Find(mark, "type").None? ==> r == Err(KeyError(JStr("type")))
    ensures r.Ok? ==> Find(mark, "type").Some? && mark[Find(mark, "type").value].1 == JStr(KindName(r.value))
  {
    match Find(mark, "type")
    case None => Err(KeyError(JStr("type")))
    case Some(t) =>
      var v := mark[t].1;
      if v.JArr? || v.JObj? then Err(TypeError)
      else if v == JStr("link") then Ok(Link)
      else if v == JStr("bold") then Ok(Bold)
      else if v == JStr("italic") then Ok(Italic)
      else if v == JStr("underline") then Ok(Underline)
      else Err(KeyError(v))
  }

  /** What `style(marks)` itself raises, before the stylist it returns is ever called. */
  function StyleError(marks: Json): (r: Option<PyError>)
    ensures marks.JArr? ==> r.None?
    ensures !marks.JArr? && !marks.JObj? ==> r == Some(ValueError("bad input :("))
  {
    match marks
    case JArr(_) => None
    case JObj(fs) => (match MarkKindOf(fs) case Err(e) => Some(e) case Ok(_) => None)
    case _ => Some(ValueError("bad input :("))
  }

  /** The lambda a `style_*` function returns, applied to `text`; a link reads `mark['attrs']['href']` only then. */
  function Wrap(kind: MarkKind, mark: seq<(string, Json)>, text: Json): (r: Result<Json, PyError>)
    ensures kind == Bold ==> r == Ok(JStr("\\textbf{" + Str(text) + "}"))
    ensures kind == Italic ==> r == Ok(JStr("\\textit{" + Str(text) + "}"))
    ensures kind == Underline ==> r == Ok(JStr("\\underline{" + Str(text) + "}"))
    ensures kind == Link ==>
      match Find(mark, "attrs")
      case None => r == Err(KeyError(JStr("attrs")))
      case Some(a) =>
        if !mark[a].1.JObj? then r == Err(TypeError)
        else match Find(mark[a].1.fields, "href")
          case None => r == Err(KeyError(JStr("href")))
          case Some(h) => r == Ok(JStr("\\href{" + Str(mark[a].1.fields[h].1) + "}{" + Str(text) + "}"))
  {
    match kind
    case Bold => Ok(JStr("\\textbf{" + Str(text) + "}"))
    case Italic => Ok(JStr("\\textit{" + Str(text) + "}"))
    case Underline => Ok(JStr("\\underline{" + Str(text) + "}"))
    case Link =>
      match Find(mark, "attrs")
      case None => Err(KeyError(JStr("attrs")))
      case Some(a) =>
        match mark[a].1
        case JObj(attrs) =>
          (match Find(attrs, "href")
           case None => Err(KeyError(JStr("href")))
           case Some(h) => Ok(JStr("\\href{" + Str(attrs[h].1) + "}{" + Str(text) + "}")))
        case _ => Err(TypeError)
  }

  /** `style(mark)(text)`: a list of marks is a stylist of its own. */
  function ApplyMark(mark: Json, text: Json): (r: Result<Json, PyError>)
    ensures mark.JArr? ==> r == ApplyMarks(mark.elems, text)
    ensures mark.JObj? ==>
      (MarkKindOf(mark.fields).Err? ==> r == Err(MarkKindOf(mark.fields).error))
      && (MarkKindOf(mark.fields).Ok? ==> r == Wrap(MarkKindOf(mark.fields).value, mark.fields, text))
    ensures !mark.JArr? && !mark.JObj? ==> r == Err(ValueError("bad input :("))
    decreases mark
  {
    match mark
    case JArr(ms) => ApplyMarks(ms, text)
    case JObj(fs) => (match MarkKindOf(fs) case Err(e) => Err(e) case Ok(k) => Wrap(k, fs, text))
    case _ => Err(ValueError("bad input :("))
  }

  /** The stylist of `style_list`: each mark wraps the output of the ones before it. */
  function ApplyMarks(ms: seq<Json>, text: Json): (r: Result<Json, PyError>)
    ensures ms == [] ==> r == Ok(text)
    ensures |ms| == 1 ==> r == ApplyMark(ms[0], text)
    decreases ms
  {
    if ms == [] then Ok(text)
    else
      match ApplyMark(ms[0], text)
      case Err(e) => Err(e)
      case Ok(out) => ApplyMarks(ms[1..], out)
  }

  /** `stylist(text)` of `style_list`, with its loop over the marks. */
  method RunStylist(marks: seq<Json>, text: Json) returns (r: Result<Json, PyError>)
    ensures r == ApplyMarks(marks, text)
  {
    var out := text;
    for i := 0 to |marks|
      invariant ApplyMarks(marks, text) == ApplyMarks(marks[i..], out)
    {
      assert marks[i..][1..] == marks[i + 1..];
      var s := ApplyMark(marks[i], out);
      if s.Err? {
        return Err(s.error);
      }
      out := s.value;
    }
    assert marks[|marks|..] == [];
    return Ok(out);
  }

  // ---------------------------------------------------------------------------------------
  // Properties.

  /** A list of marks applied after another: the second list wraps what the first produced. */
  lemma {:induction false} ApplyMarksAppend(a: seq<Json>, b: seq<Json>, text: Json)
    ensures ApplyMarks(a + b, text) ==
      match ApplyMarks(a, text)
      case Err(e) => Err(e)
      case Ok(out) => ApplyMarks(b, out)
    decreases a
  {
    if a == [] {
      assert a + b == b;
    } else {
      assert (a + b)[0] == a[0];
      assert (a + b)[1..] == a[1..] + b;
      match ApplyMark(a[0], text)
      case Err(_) =>
      case Ok(out) => ApplyMarksAppend(a[1..], b, out);
    }
  }

  /** The mark listed last is the outermost wrapper. */
  lemma LastMarkOutermost(ms: seq<Json>, mark: Json, text: Json)
    ensures ApplyMarks(ms + [mark], text) ==
      match ApplyMarks(ms, text)
      case Err(e) => Err(e)
      case Ok(out) => ApplyMark(mark, out)
  {
    ApplyMarksAppend(ms, [mark], text);
    match ApplyMarks(ms, text)
    case Err(_) =>
    case Ok(out) =>
      match ApplyMark(mark, out)
      case Err(_) =>
      case Ok(_) =>
  }

  lemma {:induction false} CompileEachAppend(a: seq<Json>, b: seq<Json>)
    requires CompileEach(a).Ok? && CompileEach(b).Ok?
    ensures CompileEach(a + b) == Ok(CompileEach(a).value + CompileEach(b).value)
  {
    var ab := a + b;
    forall k | 0 <= k < |ab|
      ensures Compile(ab[k]).Ok?
    {
      if k < |a| {
        assert ab[k] == a[k];
      } else {
        assert ab[k] == b[k - |a|];
      }
    }
    assert CompileEach(ab).Ok?;
    var va, vb := CompileEach(a).value, CompileEach(b).value;
    var vs := va + vb;
    var r := CompileEach(ab).value;
    assert |r| == |ab| == |vs|;
    forall k | 0 <= k < |ab|
      ensures r[k] == vs[k]
    {
      if k < |a| {
        assert ab[k] == a[k] && vs[k] == va[k];
      } else {
        assert ab[k] == b[k - |a|] && vs[k] == vb[k - |a|];
      }
    }
    assert r == vs;
  }

  lemma {:induction false} JoinStrsAppend(va: seq<Json>, vb: seq<Json>, x: string, y: string)
    requires JoinStrs(va) == Ok(JStr(x)) && JoinStrs(vb) == Ok(JStr(y))
    ensures JoinStrs(va + vb) == Ok(JStr(x + y))
  {
    var v := va + vb;
    forall k | 0 <= k < |v|
      ensures v[k].JStr?
    {
      if k < |va| {
        assert v[k] == va[k];
      } else {
        assert v[k] == vb[k - |va|];
      }
    }
    var sa := seq(|va|, k requires 0 <= k < |va| => Str(va[k]));
    var sb := seq(|vb|, k requires 0 <= k < |vb| => Str(vb[k]));
    assert seq(|v|, k requires 0 <= k < |v| => Str(v[k])) == sa + sb;
    ConcatAppend(sa, sb);
  }

  /** Compiling a list is concatenating what its two halves compile to. */
  lemma CompileListAppend(a: seq<Json>, b: seq<Json>, x: string, y: string)
    requires CompileList(a) == Ok(JStr(x)) && CompileList(b) == Ok(JStr(y))
    ensures CompileList(a + b) == Ok(JStr(x + y))
  {
    CompileEachAppend(a, b);
    JoinStrsAppend(CompileEach(a).value, CompileEach(b).value, x, y);
  }

  /** The document the editor creates for a plain text compiles back to that text. */
  lemma CompileDocOf(text: string)
    ensures Compile(DocOf(text)) == Ok(JStr(text))
  {
    var tf := [("type", JStr("text")), ("text", JStr(text))];
    assert Find(tf, "type") == Some(0);
    assert Find(tf, "marks") == None;
    assert Find(tf, "text") == Some(1);
    var textNode := JObj(tf);
    assert Compile(textNode) == Ok(JStr(text));
    assert [textNode][1..] == [] && [textNode][0] == textNode;
    assert CompileEach([]) == Ok([]);
    assert [JStr(text)] + [] == [JStr(text)];
    assert CompileEach([textNode]) == Ok([JStr(text)]);
    assert [JStr(text)][1..] == [];
    assert JoinStrs([JStr(text)]) == Ok(JStr(text + ""));
    assert text + "" == text;
    var pf := [("type", JStr("paragraph")), ("content", JArr([textNode]))];
    assert Find(pf, "type") == Some(0);
    assert Find(pf, "content") == Some(1);
    var paragraph := JObj(pf);
    assert CompileIterable(JArr([textNode])) == CompileList([textNode]);
    assert CompileDict(pf) == CompileIterable(JArr([textNode]));
    assert Compile(paragraph) == Ok(JStr(text));
    assert [paragraph][1..] == [] && [paragraph][0] == paragraph;
    assert CompileEach([paragraph]) == Ok([JStr(text)]);
    assert JoinStrs([JStr(text)]) == Ok(JStr(text));
    var df := [("type", JStr("doc")), ("content", JArr([paragraph]))];
    assert Find(df, "type") == Some(0);
    assert Find(df, "content") == Some(1);
    assert DocOf(text) == JObj(df);
    assert CompileDict(df) == CompileIterable(JArr([paragraph]));
    assert CompileList([paragraph]) == Ok(JStr(text));
    assert Compile(JObj(df)) == CompileDict(df);
  }
}
