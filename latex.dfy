/**
 * The resume to LaTeX serialiser: visible sections, items and bullets become `\section`,
 * `\resumeSubheading` and `\resumeItem` commands, and the result replaces the placeholder of
 * a template supplied by the caller. Rich-text fields go through the Tiptap compiler, whose
 * exceptions propagate; the first one raised, in evaluation order, is the result.
 */
module LatexOut {
  import opened Wrappers
  import opened Text
  import opened JsonValue
  import opened Models
  import opened Seqs
  import opened Preview
  import opened TiptapCompile
  import Hook
  import Handlers

  type Out = Result<string, PyError>

  const Placeholder: string := "%[[[INSERT CONTENT HERE]]]%"
  const SubHeadingListStart: string := "\\resumeSubHeadingListStart\n"
  const SubHeadingListEnd: string := "\\resumeSubHeadingListEnd\n"
  const ItemListStart: string := "\\resumeItemListStart\n"
  const ItemListEnd: string := "\\resumeItemListEnd\n"

  /** `x + y` of two outputs, the left one evaluated first. */
  function Cat(x: Out, y: Out): (r: Out)
    ensures r.Ok? <==> x.Ok? && y.Ok?
    ensures r.Ok? ==> r.value == x.value + y.value
    ensures x.Err? ==> r == x
    ensures x.Ok? && y.Err? ==> r == y
  {
    match x
    case Err(_) => x
    case Ok(a) => (match y case Err(_) => y case Ok(b) => Ok(a + b))
  }

  /** `''.join([f(x) for x in s if shown(x)])`. */
  function Emitted<T>(f: T -> Out, shown: T -> bool, s: seq<T>): (r: Out)
    ensures (forall k :: 0 <= k < |s| ==> !shown(s[k])) ==> r == Ok("")
    ensures (forall k :: 0 <= k < |s| && shown(s[k]) ==> f(s[k]).Ok?) <==> r.Ok?
    ensures r.Err? ==> exists k :: 0 <= k < |s| && shown(s[k]) && f(s[k]) == r
    ensures forall k ::
      (0 <= k < |s| && shown(s[k]) && f(s[k]).Err? && forall j :: 0 <= j < k && shown(s[j]) ==> f(s[j]).Ok?)
      ==> r == f(s[k])
  {
    if s == [] then Ok("")
    else
      var rest := Emitted(f, shown, s[1..]);
      assert forall k :: 0 <= k < |s[1..]| ==> s[1..][k] == s[k + 1];
      if shown(s[0]) then Cat(f(s[0]), rest) else rest
  }

  /** What each element of `t` renders to, when all of them render. */
  function Renderings<T>(f: T -> Out, t: seq<T>): (r: seq<string>)
    requires forall k :: 0 <= k < |t| ==> f(t[k]).Ok?
    ensures |r| == |t| && forall k :: 0 <= k < |t| ==> r[k] == f(t[k]).value
  {
    seq(|t|, k requires 0 <= k < |t| => f(t[k]).value)
  }

  /** `f'{start_date}---{end_date}' if start_date and end_date else ''`. */
  function ItemDate(startDate: string, endDate: string): (r: string)
    ensures r != "" <==> startDate != "" && endDate != ""
    ensures r != "" ==> r == startDate + "---" + endDate
  {
    if startDate != "" && endDate != "" then startDate + "---" + endDate else ""
  }

  /** `get_latex_bullet`: `\resumeItem{…}` around the compiled json, or its exception. */
  function BulletLatex(b: BulletPoint): (r: Out)
    ensures r.Err? <==> Compile(b.json).Err?
    ensures r.Err? ==> r.error == Compile(b.json).error
    ensures r.Ok? ==> r.value == "\\resumeItem{" + Str(Compile(b.json).value) + "}\n"
  {
    match Compile(b.json)
    case Err(e) => Err(e)
    case Ok(content) => Ok("\\resumeItem{" + Str(content) + "}\n")
  }

  /** The `\section{…}` header line of a standard section. */
  function SectionHeader(title: string): string
  {
    "\\section{" + title + "}\n"
  }

  function Subheading(title: string, date: string, organization: string, location: string): string
  {
    "\\resumeSubheading{" + title + "}{" + date + "}{" + organization + "}{" + location + "}\n"
  }

  /** The subheading of an item, or the first exception its two rich-text fields raise. */
  function ItemHead(it: Item): (r: Out)
    ensures r.Ok? <==> Compile(it.organizationJSON).Ok? && Compile(it.titleJSON).Ok?
    ensures Compile(it.organizationJSON).Err? ==> r == Err(Compile(it.organizationJSON).error)
    ensures Compile(it.organizationJSON).Ok? && Compile(it.titleJSON).Err? ==> r == Err(Compile(it.titleJSON).error)
    ensures r.Ok? ==>
      r.value == Subheading(Str(Compile(it.titleJSON).value), ItemDate(it.startDate, it.endDate),
                            Str(Compile(it.organizationJSON).value), it.location)
  {
    match Compile(it.organizationJSON)
    case Err(e) => Err(e)
    case Ok(organization) =>
      match Compile(it.titleJSON)
      case Err(e) => Err(e)
      case Ok(title) => Ok(Subheading(Str(title), ItemDate(it.startDate, it.endDate), Str(organization), it.location))
  }

  function ItemLatex(it: Item): (r: Out)
    ensures Compile(it.organizationJSON).Err? ==> r == Err(Compile(it.organizationJSON).error)
    ensures Compile(it.organizationJSON).Ok? && Compile(it.titleJSON).Err? ==> r == Err(Compile(it.titleJSON).error)
    ensures it.bulletPoints == [] ==> r == ItemHead(it)
    ensures it.bulletPoints != [] && ItemHead(it).Ok? ==>
      r == Cat(Ok(ItemHead(it).value + ItemListStart), Cat(Emitted(BulletLatex, BulletIsActive(), it.bulletPoints), Ok(ItemListEnd)))
  {
    match ItemHead(it)
    case Err(e) => Err(e)
    case Ok(head) =>
      if it.bulletPoints == [] then Ok(head)
      else Cat(Ok(head + ItemListStart), Cat(Emitted(BulletLatex, BulletIsActive(), it.bulletPoints), Ok(ItemListEnd)))
  }

  /** `get_latex_section`: a LaTeX section is its title, a standard one a header and its visible items. */
  function SectionLatex(s: Section): (r: Out)
    ensures s.kind == "LaTeX" ==> r == Ok(s.title)
    ensures s.kind != "LaTeX" && Compile(s.json).Err? ==> r == Err(Compile(s.json).error)
    ensures s.kind != "LaTeX" && Compile(s.json).Ok? ==>
      var header := SectionHeader(Str(Compile(s.json).value));
      (s.items == [] ==> r == Ok(header))
      && (s.items != [] ==>
            r == Cat(Ok(header + SubHeadingListStart), Cat(Emitted(ItemLatex, ItemIsActive(), s.items), Ok(SubHeadingListEnd))))
  {
    if s.kind == "LaTeX" then Ok(s.title)
    else
      match Compile(s.json)
      case Err(e) => Err(e)
      case Ok(title) =>
        var header := SectionHeader(Str(title));
        if s.items == [] then Ok(header)
        else Cat(Ok(header + SubHeadingListStart), Cat(Emitted(ItemLatex, ItemIsActive(), s.items), Ok(SubHeadingListEnd)))
  }

  /** The text that replaces the placeholder: the visible sections, in order. */
  function Content(sections: seq<Section>): (r: Out)
    ensures (forall k :: 0 <= k < |sections| ==> !sections[k].status) ==> r == Ok("")
    ensures var shown := Filter(SectionIsActive(), sections);
      r.Ok? <==> forall k :: 0 <= k < |shown| ==> SectionLatex(shown[k]).Ok?
    ensures var shown := Filter(SectionIsActive(), sections);
      r.Ok? ==> r.value == Concat(Renderings(SectionLatex, shown))
    ensures var shown := Filter(SectionIsActive(), sections);
      forall k ::
        (0 <= k < |shown| && SectionLatex(shown[k]).Err? && forall j :: 0 <= j < k ==> SectionLatex(shown[j]).Ok?)
        ==> r == SectionLatex(shown[k])
  {
    EmittedIsJoin(SectionLatex, SectionIsActive(), sections);
    EmittedFirstFailure(SectionLatex, SectionIsActive(), sections);
    Emitted(SectionLatex, SectionIsActive(), sections)
  }

  /** `get_latex`, with the contents of `template.tex` passed in. */
  function GetLatex(template: string, sections: seq<Section>): (r: Out)
    ensures r.Ok? <==> Content(sections).Ok?
    ensures r.Err? ==> r == Content(sections)
  {
    match Content(sections)
    case Err(e) => Err(e)
    case Ok(content) => Ok(ReplaceAll(template, Placeholder, content))
  }

  // ---------------------------------------------------------------------------------------
  // The two serialisers that build their result with `+=`.

  method EmitItem(it: Item) returns (r: Out)
    ensures r == ItemLatex(it)
  {
    var startDate := it.startDate;
    var endDate := it.endDate;
    var date := if startDate != "" && endDate != "" then startDate + "---" + endDate else "";
    var location := it.location;
    var organization := Compile(it.organizationJSON);
    if organization.Err? {
      return Err(organization.error);
    }
    var title := Compile(it.titleJSON);
    if title.Err? {
      return Err(title.error);
    }
    var latex := Subheading(Str(title.value), date, Str(organization.value), location);
    if it.bulletPoints == [] {
      return Ok(latex);
    }
    latex := latex + ItemListStart;
    var bullets := Emitted(BulletLatex, BulletIsActive(), it.bulletPoints);
    if bullets.Err? {
      return Err(bullets.error);
    }
    ghost var head := latex;
    latex := latex + bullets.value;
    latex := latex + ItemListEnd;
    assert latex == head + (bullets.value + ItemListEnd);
    return Ok(latex);
  }

  method EmitSection(s: Section) returns (r: Out)
    ensures r == SectionLatex(s)
  {
    if s.kind == "LaTeX" {
      return Ok(s.title);
    }
    var title := Compile(s.json);
    if title.Err? {
      return Err(title.error);
    }
    var latex := SectionHeader(Str(title.value));
    if s.items == [] {
      return Ok(latex);
    }
    latex := latex + SubHeadingListStart;
    var items := Emitted(ItemLatex, ItemIsActive(), s.items);
    if items.Err? {
      return Err(items.error);
    }
    ghost var head := latex;
    latex := latex + items.value;
    latex := latex + SubHeadingListEnd;
    assert latex == head + (items.value + SubHeadingListEnd);
    return Ok(latex);
  }

  // ---------------------------------------------------------------------------------------
  // Properties.

  /**
   * The join is the concatenation, in order, of what the shown elements render to; it succeeds
   * exactly when each of them does.
   */
  lemma EmittedIsJoin<T>(f: T -> Out, shown: T -> bool, s: seq<T>)
    ensures var t := Filter(shown, s);
      Emitted(f, shown, s).Ok? <==> forall k :: 0 <= k < |t| ==> f(t[k]).Ok?
    ensures var t := Filter(shown, s);
      Emitted(f, shown, s).Ok? ==>
        Emitted(f, shown, s).value == Concat(Renderings(f, t))
  {
    var t := Filter(shown, s);
    EmittedSkipsHidden(f, shown, s);
    assert forall k :: 0 <= k < |t| ==> t[k] in t;
    EmittedAllShown(f, shown, t);
  }

  /** A failing join raises the exception of the first shown element that fails. */
  lemma EmittedFirstFailure<T>(f: T -> Out, shown: T -> bool, s: seq<T>)
    ensures var t := Filter(shown, s);
      forall k ::
        (0 <= k < |t| && f(t[k]).Err? && forall j :: 0 <= j < k ==> f(t[j]).Ok?)
        ==> Emitted(f, shown, s) == f(t[k])
  {
    var t := Filter(shown, s);
    EmittedSkipsHidden(f, shown, s);
    forall k | 0 <= k < |t| && f(t[k]).Err? && forall j :: 0 <= j < k ==> f(t[j]).Ok?
      ensures Emitted(f, shown, t) == f(t[k])
    {
      assert t[k] in t;
    }
  }

  /** `EmittedIsJoin` for a list whose elements are all shown. */
  lemma {:induction false} EmittedAllShown<T>(f: T -> Out, shown: T -> bool, t: seq<T>)
    requires forall k :: 0 <= k < |t| ==> shown(t[k])
    ensures Emitted(f, shown, t).Ok? <==> forall k :: 0 <= k < |t| ==> f(t[k]).Ok?
    ensures Emitted(f, shown, t).Ok? ==>
      Emitted(f, shown, t).value == Concat(Renderings(f, t))
  {
    if t != [] {
      var t' := t[1..];
      assert forall k :: 0 <= k < |t'| ==> t'[k] == t[k + 1];
      EmittedAllShown(f, shown, t');
      assert Emitted(f, shown, t) == Cat(f(t[0]), Emitted(f, shown, t'));
      if Emitted(f, shown, t).Ok? {
        assert Renderings(f, t)[1..] == Renderings(f, t');
      }
    }
  }

  /** Hidden elements contribute nothing: emitting a list is emitting its visible elements. */
  lemma {:induction false} EmittedSkipsHidden<T>(f: T -> Out, shown: T -> bool, s: seq<T>)
    ensures Emitted(f, shown, s) == Emitted(f, shown, Filter(shown, s))
  {
    if s != [] {
      EmittedSkipsHidden(f, shown, s[1..]);
      if shown(s[0]) {
        var t := Filter(shown, s);
        assert t == [s[0]] + Filter(shown, s[1..]);
        assert t[0] == s[0] && t[1..] == Filter(shown, s[1..]);
      } else {
        assert Filter(shown, s) == Filter(shown, s[1..]);
      }
    }
  }

  /** Emitting a concatenation is concatenating what the two halves emit. */
  lemma {:induction false} EmittedAppend<T>(f: T -> Out, shown: T -> bool, a: seq<T>, b: seq<T>)
    ensures Emitted(f, shown, a + b) == Cat(Emitted(f, shown, a), Emitted(f, shown, b))
  {
    if a == [] {
      assert a + b == b;
      if Emitted(f, shown, b).Ok? {
        assert "" + Emitted(f, shown, b).value == Emitted(f, shown, b).value;
      }
    } else {
      assert (a + b)[0] == a[0] && (a + b)[1..] == a[1..] + b;
      EmittedAppend(f, shown, a[1..], b);
      CatAssoc(f(a[0]), Emitted(f, shown, a[1..]), Emitted(f, shown, b));
    }
  }

  /** Applying `Cat` to three outputs associates, so an appended section follows the others. */
  lemma CatAssoc(x: Out, y: Out, z: Out)
    ensures Cat(Cat(x, y), z) == Cat(x, Cat(y, z))
  {
    if x.Ok? && y.Ok? && z.Ok? {
      assert (x.value + y.value) + z.value == x.value + (y.value + z.value);
    }
  }

  /** Hiding a section removes exactly its text from the content. */
  lemma ContentSkipsHidden(sections: seq<Section>)
    ensures Content(sections) == Content(Filter(SectionIsActive(), sections))
  {
    EmittedSkipsHidden(SectionLatex, SectionIsActive(), sections);
  }

  /** The content of `a + b` is the content of `a` followed by that of `b`. */
  lemma ContentAppend(a: seq<Section>, b: seq<Section>)
    ensures Content(a + b) == Cat(Content(a), Content(b))
  {
    EmittedAppend(SectionLatex, SectionIsActive(), a, b);
  }

  /** A section with items that are all hidden still opens and closes its list. */
  lemma AllItemsHidden(s: Section)
    requires s.kind != "LaTeX" && Compile(s.json).Ok? && s.items != []
    requires forall k :: 0 <= k < |s.items| ==> !s.items[k].status
    ensures SectionLatex(s) == Ok(SectionHeader(Str(Compile(s.json).value)) + SubHeadingListStart + SubHeadingListEnd)
  {
    assert Emitted(ItemLatex, ItemIsActive(), s.items) == Ok("");
    assert "" + SubHeadingListEnd == SubHeadingListEnd;
  }

  /** An item with bullets that are all hidden still opens and closes its list. */
  lemma AllBulletsHidden(it: Item)
    requires ItemHead(it).Ok? && it.bulletPoints != []
    requires forall k :: 0 <= k < |it.bulletPoints| ==> !it.bulletPoints[k].status
    ensures ItemLatex(it) == Ok(ItemHead(it).value + ItemListStart + ItemListEnd)
  {
    assert Emitted(BulletLatex, BulletIsActive(), it.bulletPoints) == Ok("");
    assert "" + ItemListEnd == ItemListEnd;
  }

  /** A template holding the placeholder once gets the content in its place and is otherwise kept. */
  lemma GetLatexFillsPlaceholder(pre: string, post: string, sections: seq<Section>)
    requires forall i: nat :: i < |pre| ==> !OccursAt(pre + Placeholder + post, Placeholder, i)
    requires !Contains(post, Placeholder)
    requires Content(sections).Ok?
    ensures GetLatex(pre + Placeholder + post, sections) == Ok(pre + Content(sections).value + post)
  {
    ReplaceAllOnce(pre, post, Placeholder, Content(sections).value);
  }

  /** A template without the placeholder comes back unchanged. */
  lemma GetLatexWithoutPlaceholder(template: string, sections: seq<Section>)
    requires !Contains(template, Placeholder) && Content(sections).Ok?
    ensures GetLatex(template, sections) == Ok(template)
  {
    ReplaceAllAbsent(template, Placeholder, Content(sections).value);
  }

  /** A bullet whose json is the document of a text renders that text. */
  lemma BulletOfDoc(b: BulletPoint, text: string)
    requires b.json == DocOf(text)
    ensures BulletLatex(b) == Ok("\\resumeItem{" + text + "}\n")
  {
    CompileDocOf(text);
  }

  /** An item whose rich-text fields are documents of plain texts renders those texts. */
  lemma ItemOfDocs(it: Item, title: string, organization: string)
    requires it.titleJSON == DocOf(title) && it.organizationJSON == DocOf(organization)
    requires it.bulletPoints == []
    ensures ItemLatex(it) == Ok(Subheading(title, ItemDate(it.startDate, it.endDate), organization, it.location))
  {
    CompileDocOf(title);
    CompileDocOf(organization);
  }

  /** The item either editor or the backend adds renders as the default subheading. */
  lemma NewItemLatex(it: Item)
    requires it == Hook.NewItem(it.id) || it == Handlers.ServerItem(it.id)
    ensures ItemLatex(it) == Ok(Subheading("New Item", "", "Organization", ""))
  {
    ItemOfDocs(it, "New Item", "Organization");
  }

  /** A standard section without items whose json is a document renders its text as header. */
  lemma SectionOfDoc(s: Section, title: string)
    requires s.kind != "LaTeX" && s.json == DocOf(title) && s.items == []
    ensures SectionLatex(s) == Ok(SectionHeader(title))
  {
    CompileDocOf(title);
    assert Str(JStr(title)) == title;
  }

  /** The section the backend adds renders as its header. */
  lemma ServerSectionLatex(id: string)
    ensures SectionLatex(Handlers.ServerSection(id)) == Ok(SectionHeader("New Section"))
  {
    SectionOfDoc(Handlers.ServerSection(id), "New Section");
  }

  /** Finding, as written: the section the local hook appends has a null title document, rendered as `None`. */
  lemma NewSectionRendersNone(id: string)
    ensures SectionLatex(Hook.NewSection(id)) == Ok(SectionHeader("None"))
  {
    var s := Hook.NewSection(id);
    assert s.kind != "LaTeX" && s.items == [];
    assert Compile(s.json) == Ok(JNull);
    assert Str(JNull) == "None";
  }

  /** Finding, corrected: the intended new section is the backend's one and renders its title. */
  lemma NewSectionIntendedRendersTitle(id: string)
    ensures Hook.NewSectionIntended(id) == Handlers.ServerSection(id)
    ensures SectionLatex(Hook.NewSectionIntended(id)) == Ok(SectionHeader("New Section"))
  {
    ServerSectionLatex(id);
  }

  /**
   * Finding, as written: the text an edit of a LaTeX section stores is never emitted. Both
   * `updateLatexContent` in the hook and the `update-latex` handler write it into `json`,
   * while `get_latex_section` emits the title of a LaTeX section.
   */
  lemma LatexEditNotRendered(r: Resume, sectionId: string, text: string, i: nat)
    requires i < |r.sections| && r.sections[i].kind == "LaTeX" && r.sections[i].id == sectionId
    ensures SectionLatex(Hook.UpdateLatexContent(r, sectionId, text).sections[i]) == SectionLatex(r.sections[i])
    ensures SectionLatex(Hook.UpdateLatexContent(r, sectionId, text).sections[i]) == Ok(r.sections[i].title)
  {
    var s' := Hook.UpdateLatexContent(r, sectionId, text).sections[i];
    assert s'.kind == r.sections[i].kind && s'.title == r.sections[i].title by {
      assert s'.(json := r.sections[i].json) == r.sections[i];
    }
  }

  /**
   * Finding, corrected: a LaTeX section emits the text stored in its `json`, and its title while
   * no text has been stored; a standard section renders as before.
   */
  function SectionLatexIntended(s: Section): (r: Out)
    ensures s.kind == "LaTeX" && s.json.JStr? ==> r == Ok(s.json.s)
    ensures s.kind == "LaTeX" && !s.json.JStr? ==> r == Ok(s.title)
    ensures s.kind != "LaTeX" ==> r == SectionLatex(s)
  {
    if s.kind == "LaTeX" then (if s.json.JStr? then Ok(s.json.s) else Ok(s.title))
    else SectionLatex(s)
  }

  /** Finding, corrected: after an edit, the edited LaTeX section renders the new text. */
  lemma LatexEditRendered(r: Resume, sectionId: string, text: string, i: nat)
    requires i < |r.sections| && r.sections[i].kind == "LaTeX" && r.sections[i].id == sectionId
    ensures SectionLatexIntended(Hook.UpdateLatexContent(r, sectionId, text).sections[i]) == Ok(text)
  {
    var s' := Hook.UpdateLatexContent(r, sectionId, text).sections[i];
    assert s'.kind == r.sections[i].kind && s'.json == JStr(text) by {
      assert s'.(json := r.sections[i].json) == r.sections[i];
    }
  }
}
