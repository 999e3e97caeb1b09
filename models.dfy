/**
 * The resume content tree, Section -> Item -> BulletPoint, with the field defaults the backend's
 * records declare. The field the source calls `type` is `kind` here.
 */
module Models {
  import opened Wrappers
  import opened JsonValue

  datatype BulletPoint = BulletPoint(
    id: string, kind: string, text: string, html: Option<string>, json: Json, status: bool)

  datatype Item = Item(
    id: string, kind: string, title: string, organization: string,
    startDate: string, endDate: string, location: string,
    status: bool, isCollapsed: bool,
    titleJSON: Json, organizationJSON: Json,
    bulletPoints: seq<BulletPoint>)

  datatype Section = Section(
    id: string, kind: string, title: string, status: bool, isCollapsed: bool,
    json: Json, items: seq<Item>)

  datatype Resume = Resume(sections: seq<Section>)

  /** `BulletPoint(id=…, text=…)`: every other field takes its declared default. */
  function DefaultBulletPoint(id: string, text: string): (b: BulletPoint)
    ensures b.id == id && b.text == text
    ensures b.kind == "Bullet" && b.html == None && b.json == JNull && b.status
  {
    BulletPoint(id, "Bullet", text, None, JNull, true)
  }

  /** `Item(id=…, title=…, organization=…)`: visible, expanded, no dates, no location, no bullets. */
  function DefaultItem(id: string, title: string, organization: string): (it: Item)
    ensures it.id == id && it.title == title && it.organization == organization
    ensures it.kind == "Item" && it.startDate == "" && it.endDate == "" && it.location == ""
    ensures it.status && !it.isCollapsed
    ensures it.titleJSON == JNull && it.organizationJSON == JNull && it.bulletPoints == []
  {
    Item(id, "Item", title, organization, "", "", "", true, false, JNull, JNull, [])
  }

  /** `Section(id=…, title=…)`: a visible, expanded standard section without content. */
  function DefaultSection(id: string, title: string): (s: Section)
    ensures s.id == id && s.title == title
    ensures s.kind == "Section" && s.status && !s.isCollapsed && s.json == JNull && s.items == []
  {
    Section(id, "Section", title, true, false, JNull, [])
  }

  /** `Resume()`: no sections. */
  function DefaultResume(): (r: Resume)
    ensures r.sections == []
  {
    Resume([])
  }

  // ---------------------------------------------------------------------------------------
  // Partial item updates: a JavaScript `Partial<ResumeItem>` spread over the item, or the
  // Python body dict whose entries are assigned with `setattr` when the item has them.

  /** One key of the update with its value; `Unknown` is a key that names no field of the item. */
  datatype ItemField =
    | SetId(id: string)
    | SetKind(kind: string)
    | SetTitle(title: string)
    | SetOrganization(organization: string)
    | SetStartDate(startDate: string)
    | SetEndDate(endDate: string)
    | SetLocation(location: string)
    | SetStatus(status: bool)
    | SetIsCollapsed(isCollapsed: bool)
    | SetTitleJSON(titleJSON: Json)
    | SetOrganizationJSON(organizationJSON: Json)
    | SetBulletPoints(bulletPoints: seq<BulletPoint>)
    | Unknown(key: string)

  datatype FieldName =
    FId | FKind | FTitle | FOrganization | FStartDate | FEndDate | FLocation
    | FStatus | FIsCollapsed | FTitleJSON | FOrganizationJSON | FBulletPoints

  /** The value of one item field, whatever its type. */
  datatype FieldValue = Text(s: string) | Flag(b: bool) | Doc(j: Json) | Bullets(bs: seq<BulletPoint>)

  /** The field the key names, if any. */
  function NameOf(f: ItemField): Option<FieldName>
  {
    match f
    case SetId(_) => Some(FId)
    case SetKind(_) => Some(FKind)
    case SetTitle(_) => Some(FTitle)
    case SetOrganization(_) => Some(FOrganization)
    case SetStartDate(_) => Some(FStartDate)
    case SetEndDate(_) => Some(FEndDate)
    case SetLocation(_) => Some(FLocation)
    case SetStatus(_) => Some(FStatus)
    case SetIsCollapsed(_) => Some(FIsCollapsed)
    case SetTitleJSON(_) => Some(FTitleJSON)
    case SetOrganizationJSON(_) => Some(FOrganizationJSON)
    case SetBulletPoints(_) => Some(FBulletPoints)
    case Unknown(_) => None
  }

  /** The value the key carries. */
  function ValueOf(f: ItemField): FieldValue
    requires !f.Unknown?
  {
    match f
    case SetId(v) => Text(v)
    case SetKind(v) => Text(v)
    case SetTitle(v) => Text(v)
    case SetOrganization(v) => Text(v)
    case SetStartDate(v) => Text(v)
    case SetEndDate(v) => Text(v)
    case SetLocation(v) => Text(v)
    case SetStatus(v) => Flag(v)
    case SetIsCollapsed(v) => Flag(v)
    case SetTitleJSON(v) => Doc(v)
    case SetOrganizationJSON(v) => Doc(v)
    case SetBulletPoints(v) => Bullets(v)
  }

  /** Reads one field of an item. */
  function FieldOf(it: Item, n: FieldName): FieldValue
  {
    match n
    case FId => Text(it.id)
    case FKind => Text(it.kind)
    case FTitle => Text(it.title)
    case FOrganization => Text(it.organization)
    case FStartDate => Text(it.startDate)
    case FEndDate => Text(it.endDate)
    case FLocation => Text(it.location)
    case FStatus => Flag(it.status)
    case FIsCollapsed => Flag(it.isCollapsed)
    case FTitleJSON => Doc(it.titleJSON)
    case FOrganizationJSON => Doc(it.organizationJSON)
    case FBulletPoints => Bullets(it.bulletPoints)
  }

  /** Assigns one key: the field it names gets its value, every other field is kept. */
  function ApplyField(it: Item, f: ItemField): (r: Item)
    ensures forall n :: FieldOf(r, n) == if NameOf(f) == Some(n) then ValueOf(f) else FieldOf(it, n)
  {
    match f
    case SetId(v) => it.(id := v)
    case SetKind(v) => it.(kind := v)
    case SetTitle(v) => it.(title := v)
    case SetOrganization(v) => it.(organization := v)
    case SetStartDate(v) => it.(startDate := v)
    case SetEndDate(v) => it.(endDate := v)
    case SetLocation(v) => it.(location := v)
    case SetStatus(v) => it.(status := v)
    case SetIsCollapsed(v) => it.(isCollapsed := v)
    case SetTitleJSON(v) => it.(titleJSON := v)
    case SetOrganizationJSON(v) => it.(organizationJSON := v)
    case SetBulletPoints(v) => it.(bulletPoints := v)
    case Unknown(_) => it
  }

  /** Assigns the keys of an update in order (`{ ...item, ...update }`). */
  function ApplyFields(it: Item, fs: seq<ItemField>): (r: Item)
    ensures (forall k :: 0 <= k < |fs| ==> fs[k].Unknown?) ==> r == it
    decreases |fs|
  {
    if fs == [] then it else ApplyFields(ApplyField(it, fs[0]), fs[1..])
  }

  /** Assigning one more key after the others. */
  lemma {:induction false} ApplyFieldsSnoc(it: Item, fs: seq<ItemField>, f: ItemField)
    ensures ApplyFields(it, fs + [f]) == ApplyField(ApplyFields(it, fs), f)
    decreases |fs|
  {
    if fs != [] {
      assert (fs + [f])[1..] == fs[1..] + [f];
      ApplyFieldsSnoc(ApplyField(it, fs[0]), fs[1..], f);
    }
  }

  /** A field that no key of the update names keeps its value. */
  lemma {:induction false} ApplyFieldsFrame(it: Item, fs: seq<ItemField>, n: FieldName)
    requires forall k :: 0 <= k < |fs| ==> NameOf(fs[k]) != Some(n)
    ensures FieldOf(ApplyFields(it, fs), n) == FieldOf(it, n)
    decreases |fs|
  {
    if fs != [] {
      ApplyFieldsFrame(ApplyField(it, fs[0]), fs[1..], n);
    }
  }

  /** A field named by the update gets the value of the last key that names it. */
  lemma {:induction false} ApplyFieldsLastWins(it: Item, fs: seq<ItemField>, k: nat, n: FieldName)
    requires k < |fs| && NameOf(fs[k]) == Some(n)
    requires forall j :: k < j < |fs| ==> NameOf(fs[j]) != Some(n)
    ensures FieldOf(ApplyFields(it, fs), n) == ValueOf(fs[k])
    decreases |fs|
  {
    if k == 0 {
      ApplyFieldsFrame(ApplyField(it, fs[0]), fs[1..], n);
    } else {
      ApplyFieldsLastWins(ApplyField(it, fs[0]), fs[1..], k - 1, n);
    }
  }
}
