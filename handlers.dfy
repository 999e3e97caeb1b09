/**
 * What each request handler of the backend does to the global `sections` list and what it
 * answers, as a pure function of the list before the request. Handlers scan the list with a
 * `for` loop and act on the FIRST node whose id matches; a nested lookup that finds its
 * section but not the item inside it fails there and never looks at later sections.
 */
module Handlers {
  import opened Wrappers
  import opened JsonValue
  import opened Models
  import opened Seqs
  import opened Tree
  import Hook
  import Editor

  /** The JSON object a handler returns. */
  datatype Body =
    | SectionsBody(sections: seq<Section>)   // {"sections": …}
    | SectionBody(section: Section)          // {"section": …}
    | BareSection(section: Section)          // the section itself, without a wrapper
    | ItemBody(item: Item)                   // {"item": …}
    | BulletBody(bullet: BulletPoint)        // {"bullet": …}
    | Message(message: string)               // {"message": …}

  datatype Response = Success(body: Body) | HttpError(status: nat, detail: string)

  /** The list after the request, and the answer. */
  datatype Reply = Reply(state: seq<Section>, response: Response)

  const SectionNotFound := HttpError(404, "Section not found")
  const ItemNotFound := HttpError(404, "Item not found")
  const BulletNotFound := HttpError(404, "Bullet point not found")
  /** An exception the handler does not catch (a missing body key); the framework answers 500. */
  const InternalError := HttpError(500, "Internal Server Error")

  /** A body with optional `title` and `json` keys. */
  datatype TitleUpdate = TitleUpdate(title: Option<string>, json: Option<Json>)
  /** A body with optional `text` and `json` keys. */
  datatype TextUpdate = TextUpdate(text: Option<string>, json: Option<Json>)

  function SectionIdIs(id: string): Section -> bool { (s: Section) => s.id == id }
  function ItemIdIs(id: string): Item -> bool { (it: Item) => it.id == id }
  function BulletIdIs(id: string): BulletPoint -> bool { (b: BulletPoint) => b.id == id }

  /** `i` is where a `for section in sections: if section.id != id: continue …` loop stops. */
  ghost predicate IsFirstSection(ss: seq<Section>, id: string, i: nat)
  {
    i < |ss| && ss[i].id == id && forall k :: 0 <= k < i ==> ss[k].id != id
  }

  ghost predicate IsFirstItem(items: seq<Item>, id: string, j: nat)
  {
    j < |items| && items[j].id == id && forall k :: 0 <= k < j ==> items[k].id != id
  }

  ghost predicate IsFirstBullet(bs: seq<BulletPoint>, id: string, k: nat)
  {
    k < |bs| && bs[k].id == id && forall m :: 0 <= m < k ==> bs[m].id != id
  }

  ghost predicate HasItem(s: Section, id: string)
  {
    exists it :: it in s.items && it.id == id
  }

  ghost predicate HasBullet(it: Item, id: string)
  {
    exists b :: b in it.bulletPoints && b.id == id
  }

  /** Replaces item `j` of section `i`. */
  function WithItem(ss: seq<Section>, i: nat, j: nat, it: Item): seq<Section>
    requires i < |ss| && j < |ss[i].items|
  {
    ss[i := ss[i].(items := ss[i].items[j := it])]
  }

  /** Replaces bullet `k` of item `j` of section `i`. */
  function WithBullet(ss: seq<Section>, i: nat, j: nat, k: nat, b: BulletPoint): seq<Section>
    requires i < |ss| && j < |ss[i].items| && k < |ss[i].items[j].bulletPoints|
  {
    var it := ss[i].items[j];
    WithItem(ss, i, j, it.(bulletPoints := it.bulletPoints[k := b]))
  }

  // ---------------------------------------------------------------------------------------
  // The nodes the add handlers create.

  function ServerSection(id: string): Section
  {
    DefaultSection(id, "New Section").(json := DocOf("New Section"))
  }

  function ServerLatexSection(id: string): Section
  {
    DefaultSection(id, "").(kind := "LaTeX")
  }

  function ServerItem(id: string): (it: Item)
    ensures it.id == id && it.kind == "Item" && it.title == "New Item" && it.organization == "Organization"
    ensures it.startDate == "" && it.endDate == "" && it.location == "" && it.status && !it.isCollapsed
    ensures it.titleJSON == DocOf("New Item") && it.organizationJSON == DocOf("Organization") && it.bulletPoints == []
  {
    DefaultItem(id, "New Item", "Organization").(titleJSON := DocOf("New Item"), organizationJSON := DocOf("Organization"))
  }

  function ServerBullet(id: string): (b: BulletPoint)
    ensures b.id == id && b.kind == "BulletPoint" && b.text == "New Bullet Point" && b.html == None
    ensures b.json == DocOf("New Bullet Point") && b.status
  {
    DefaultBulletPoint(id, "New Bullet Point").(kind := "BulletPoint", json := DocOf("New Bullet Point"))
  }

  // ---------------------------------------------------------------------------------------
  // The nested lookups every item and bullet handler starts with.

  /** The first item with `itemId` in the first section with `sectionId`, or the error the handler raises. */
  function LocateItem(ss: seq<Section>, sectionId: string, itemId: string): (r: Result<(nat, nat), Response>)
    ensures r.Ok? ==> IsFirstSection(ss, sectionId, r.value.0) && IsFirstItem(ss[r.value.0].items, itemId, r.value.1)
    ensures r.Err? ==> r.error == SectionNotFound || r.error == ItemNotFound
    ensures r == Err(SectionNotFound) <==> !SectionIdUsed(ss, sectionId)
    ensures r == Err(ItemNotFound) <==> exists i: nat :: IsFirstSection(ss, sectionId, i) && !HasItem(ss[i], itemId)
  {
    match FirstIndex(ss, SectionIdIs(sectionId))
    case None =>
      assert forall s :: s in ss ==> s.id != sectionId by {
        forall s | s in ss ensures s.id != sectionId {
          var k :| 0 <= k < |ss| && ss[k] == s;
        }
      }
      Err(SectionNotFound)
    case Some(i) =>
      assert SectionIdUsed(ss, sectionId) by { assert ss[i] in ss; }
      match FirstIndex(ss[i].items, ItemIdIs(itemId))
      case None =>
        assert !HasItem(ss[i], itemId) by {
          forall it | it in ss[i].items ensures it.id != itemId {
            var k :| 0 <= k < |ss[i].items| && ss[i].items[k] == it;
          }
        }
        Err(ItemNotFound)
      case Some(j) =>
        assert HasItem(ss[i], itemId) by { assert ss[i].items[j] in ss[i].items; }
        Ok((i, j))
  }

  /** The first bullet with `bulletId` in the item `LocateItem` finds, or the error the handler raises. */
  function LocateBullet(ss: seq<Section>, sectionId: string, itemId: string, bulletId: string)
    : (r: Result<(nat, nat, nat), Response>)
    ensures r.Ok? ==>
      IsFirstSection(ss, sectionId, r.value.0) && IsFirstItem(ss[r.value.0].items, itemId, r.value.1)
      && IsFirstBullet(ss[r.value.0].items[r.value.1].bulletPoints, bulletId, r.value.2)
    ensures r.Err? ==> r.error == SectionNotFound || r.error == ItemNotFound || r.error == BulletNotFound
    ensures r == Err(SectionNotFound) <==> !SectionIdUsed(ss, sectionId)
    ensures r == Err(ItemNotFound) <==> exists i: nat :: IsFirstSection(ss, sectionId, i) && !HasItem(ss[i], itemId)
    ensures r == Err(BulletNotFound) <==>
      exists i: nat, j: nat :: IsFirstSection(ss, sectionId, i) && IsFirstItem(ss[i].items, itemId, j)
                               && !HasBullet(ss[i].items[j], bulletId)
  {
    match LocateItem(ss, sectionId, itemId)
    case Err(e) => Err(e)
    case Ok((i, j)) =>
      var bs := ss[i].items[j].bulletPoints;
      match FirstIndex(bs, BulletIdIs(bulletId))
      case None =>
        assert !HasBullet(ss[i].items[j], bulletId) by {
          forall b | b in bs ensures b.id != bulletId {
            var k :| 0 <= k < |bs| && bs[k] == b;
          }
        }
        Err(BulletNotFound)
      case Some(k) =>
        assert HasBullet(ss[i].items[j], bulletId) by { assert bs[k] in bs; }
        Ok((i, j, k))
  }

  // ---------------------------------------------------------------------------------------
  // Handlers.

  function GetSections(ss: seq<Section>): (r: Reply)
    ensures r.state == ss && r.response.Success? && r.response.body.SectionsBody? && r.response.body.sections == ss
  {
    Reply(ss, Success(SectionsBody(ss)))
  }

  function AddSection(ss: seq<Section>, freshId: string): (r: Reply)
    ensures r.response.Success? && r.response.body.SectionBody?
    ensures r.state == ss + [r.response.body.section]
    ensures var s := r.response.body.section;
      s.id == freshId && s.kind == "Section" && s.title == "New Section" && s.status && !s.isCollapsed
      && s.json == DocOf("New Section") && s.items == []
  {
    var s := ServerSection(freshId);
    Reply(ss + [s], Success(SectionBody(s)))
  }

  function AddLatexSection(ss: seq<Section>, freshId: string): (r: Reply)
    ensures r.response.Success? && r.response.body.SectionBody?
    ensures r.state == ss + [r.response.body.section]
    ensures var s := r.response.body.section;
      s.id == freshId && s.kind == "LaTeX" && s.title == "" && s.status && !s.isCollapsed
      && s.json == JNull && s.items == []
  {
    var s := ServerLatexSection(freshId);
    Reply(ss + [s], Success(SectionBody(s)))
  }

  /** `section.json = data['text']` on the first match; a missing key raises before anything changes. */
  function UpdateLatex(ss: seq<Section>, id: string, data: seq<(string, Json)>): (r: Reply)
    ensures r.response.HttpError? ==> r.state == ss
    ensures r.response == HttpError(400, "Section not found") <==> !SectionIdUsed(ss, id)
    ensures r.response == InternalError <==> SectionIdUsed(ss, id) && Find(data, "text").None?
    ensures forall i: nat, k: nat :: IsFirstSection(ss, id, i) && Find(data, "text") == Some(k) ==>
      r.state == ss[i := ss[i].(json := data[k].1)] && r.response == Success(BareSection(r.state[i]))
  {
    match FirstIndex(ss, SectionIdIs(id))
    case None => Reply(ss, HttpError(400, "Section not found"))
    case Some(i) =>
      match Find(data, "text")
      case None => Reply(ss, InternalError)
      case Some(k) =>
        var s := ss[i].(json := data[k].1);
        Reply(ss[i := s], Success(BareSection(s)))
  }

  /** `sections.pop(i)` for the first match. */
  function RemoveSection(ss: seq<Section>, id: string): (r: Reply)
    ensures r.response.HttpError? ==> r.state == ss
    ensures r.response.HttpError? <==> !SectionIdUsed(ss, id)
    ensures r.response.HttpError? ==> r.response == SectionNotFound
    ensures forall i: nat :: IsFirstSection(ss, id, i) ==>
      r.state == ss[..i] + ss[i + 1..] && r.response == Success(Message("Section deleted successfully"))
  {
    match FirstIndex(ss, SectionIdIs(id))
    case None => Reply(ss, SectionNotFound)
    case Some(i) => Reply(RemoveAt(ss, i), Success(Message("Section deleted successfully")))
  }

  function ToggleSectionStatus(ss: seq<Section>, id: string): (r: Reply)
    ensures r.response.HttpError? ==> r.state == ss
    ensures r.response.HttpError? <==> !SectionIdUsed(ss, id)
    ensures r.response.HttpError? ==> r.response == SectionNotFound
    ensures forall i: nat :: IsFirstSection(ss, id, i) ==>
      r.state == ss[i := ss[i].(status := !ss[i].status)] && r.response == Success(SectionBody(r.state[i]))
  {
    match FirstIndex(ss, SectionIdIs(id))
    case None => Reply(ss, SectionNotFound)
    case Some(i) =>
      var s := ss[i].(status := !ss[i].status);
      Reply(ss[i := s], Success(SectionBody(s)))
  }

  /** Assigns `title` and `json` only for the keys the body has. */
  function UpdateSectionTitle(ss: seq<Section>, id: string, data: TitleUpdate): (r: Reply)
    ensures r.response.HttpError? ==> r.state == ss
    ensures r.response.HttpError? <==> !SectionIdUsed(ss, id)
    ensures r.response.HttpError? ==> r.response == SectionNotFound
    ensures |r.state| == |ss|
    ensures forall i: nat :: IsFirstSection(ss, id, i) ==>
      var s, s' := ss[i], r.state[i];
      (forall k :: 0 <= k < |ss| && k != i ==> r.state[k] == ss[k])
      && s'.(title := s.title, json := s.json) == s
      && s'.title == (if data.title.Some? then data.title.value else s.title)
      && s'.json == (if data.json.Some? then data.json.value else s.json)
      && r.response == Success(SectionBody(s'))
  {
    match FirstIndex(ss, SectionIdIs(id))
    case None => Reply(ss, SectionNotFound)
    case Some(i) =>
      var s0 := ss[i];
      var s1 := if data.title.Some? then s0.(title := data.title.value) else s0;
      var s2 := if data.json.Some? then s1.(json := data.json.value) else s1;
      Reply(ss[i := s2], Success(SectionBody(s2)))
  }

  function AddItem(ss: seq<Section>, sectionId: string, freshId: string): (r: Reply)
    ensures r.response.HttpError? ==> r.state == ss
    ensures r.response.HttpError? <==> !SectionIdUsed(ss, sectionId)
    ensures r.response.HttpError? ==> r.response == SectionNotFound
    ensures forall i: nat :: IsFirstSection(ss, sectionId, i) ==>
      r.response.Success? && r.response.body.ItemBody?
      && r.state == ss[i := ss[i].(items := ss[i].items + [r.response.body.item])]
    ensures r.response.Success? ==> r.response.body.ItemBody? && r.response.body.item == ServerItem(freshId)
  {
    match FirstIndex(ss, SectionIdIs(sectionId))
    case None => Reply(ss, SectionNotFound)
    case Some(i) =>
      var it := ServerItem(freshId);
      Reply(ss[i := ss[i].(items := ss[i].items + [it])], Success(ItemBody(it)))
  }

  function ToggleItemStatus(ss: seq<Section>, sectionId: string, itemId: string): (r: Reply)
    ensures r.response.HttpError? <==> LocateItem(ss, sectionId, itemId).Err?
    ensures r.response.HttpError? ==> r.state == ss && r.response == LocateItem(ss, sectionId, itemId).error
    ensures LocateItem(ss, sectionId, itemId).Ok? ==>
      var (i, j) := LocateItem(ss, sectionId, itemId).value;
      var it := ss[i].items[j];
      r.state == WithItem(ss, i, j, it.(status := !it.status)) && r.response == Success(ItemBody(it.(status := !it.status)))
  {
    match LocateItem(ss, sectionId, itemId)
    case Err(e) => Reply(ss, e)
    case Ok((i, j)) =>
      var it := ss[i].items[j].(status := !ss[i].items[j].status);
      Reply(WithItem(ss, i, j, it), Success(ItemBody(it)))
  }

  /** Assigns the body's keys in order, skipping keys that name no field of the item. */
  function UpdateItem(ss: seq<Section>, sectionId: string, itemId: string, updatedFields: seq<ItemField>): (r: Reply)
    ensures r.response.HttpError? <==> LocateItem(ss, sectionId, itemId).Err?
    ensures r.response.HttpError? ==> r.state == ss && r.response == LocateItem(ss, sectionId, itemId).error
    ensures LocateItem(ss, sectionId, itemId).Ok? ==>
      var (i, j) := LocateItem(ss, sectionId, itemId).value;
      var it := ApplyFields(ss[i].items[j], updatedFields);
      r.state == WithItem(ss, i, j, it) && r.response == Success(ItemBody(it))
  {
    match LocateItem(ss, sectionId, itemId)
    case Err(e) => Reply(ss, e)
    case Ok((i, j)) =>
      var it := ApplyFields(ss[i].items[j], updatedFields);
      Reply(WithItem(ss, i, j, it), Success(ItemBody(it)))
  }

  function AddBulletPoint(ss: seq<Section>, sectionId: string, itemId: string, freshId: string): (r: Reply)
    ensures r.response.HttpError? <==> LocateItem(ss, sectionId, itemId).Err?
    ensures r.response.HttpError? ==> r.state == ss && r.response == LocateItem(ss, sectionId, itemId).error
    ensures r.response.Success? ==> r.response.body.BulletBody? && r.response.body.bullet == ServerBullet(freshId)
    ensures LocateItem(ss, sectionId, itemId).Ok? ==>
      var (i, j) := LocateItem(ss, sectionId, itemId).value;
      var it := ss[i].items[j];
      r.state == WithItem(ss, i, j, it.(bulletPoints := it.bulletPoints + [ServerBullet(freshId)]))
  {
    match LocateItem(ss, sectionId, itemId)
    case Err(e) => Reply(ss, e)
    case Ok((i, j)) =>
      var b := ServerBullet(freshId);
      var it := ss[i].items[j];
      Reply(WithItem(ss, i, j, it.(bulletPoints := it.bulletPoints + [b])), Success(BulletBody(b)))
  }

  function ToggleBulletStatus(ss: seq<Section>, sectionId: string, itemId: string, bulletId: string): (r: Reply)
    ensures r.response.HttpError? <==> LocateBullet(ss, sectionId, itemId, bulletId).Err?
    ensures r.response.HttpError? ==> r.state == ss && r.response == LocateBullet(ss, sectionId, itemId, bulletId).error
    ensures LocateBullet(ss, sectionId, itemId, bulletId).Ok? ==>
      var (i, j, k) := LocateBullet(ss, sectionId, itemId, bulletId).value;
      var b := ss[i].items[j].bulletPoints[k];
      r.state == WithBullet(ss, i, j, k, b.(status := !b.status)) && r.response == Success(BulletBody(b.(status := !b.status)))
  {
    match LocateBullet(ss, sectionId, itemId, bulletId)
    case Err(e) => Reply(ss, e)
    case Ok((i, j, k)) =>
      var b := ss[i].items[j].bulletPoints[k].(status := !ss[i].items[j].bulletPoints[k].status);
      Reply(WithBullet(ss, i, j, k, b), Success(BulletBody(b)))
  }

  /** Assigns `text` and `json` only for the keys the body has. */
  function UpdateBulletText(ss: seq<Section>, sectionId: string, itemId: string, bulletId: string, data: TextUpdate)
    : (r: Reply)
    ensures r.response.HttpError? <==> LocateBullet(ss, sectionId, itemId, bulletId).Err?
    ensures r.response.HttpError? ==> r.state == ss && r.response == LocateBullet(ss, sectionId, itemId, bulletId).error
    ensures LocateBullet(ss, sectionId, itemId, bulletId).Ok? ==>
      var (i, j, k) := LocateBullet(ss, sectionId, itemId, bulletId).value;
      var b := ss[i].items[j].bulletPoints[k];
      r.response.Success? && r.response.body.BulletBody? &&
      var b' := r.response.body.bullet;
      b'.(text := b.text, json := b.json) == b
      && b'.text == (if data.text.Some? then data.text.value else b.text)
      && b'.json == (if data.json.Some? then data.json.value else b.json)
      && r.state == WithBullet(ss, i, j, k, b')
  {
    match LocateBullet(ss, sectionId, itemId, bulletId)
    case Err(e) => Reply(ss, e)
    case Ok((i, j, k)) =>
      var b0 := ss[i].items[j].bulletPoints[k];
      var b1 := if data.text.Some? then b0.(text := data.text.value) else b0;
      var b2 := if data.json.Some? then b1.(json := data.json.value) else b1;
      Reply(WithBullet(ss, i, j, k, b2), Success(BulletBody(b2)))
  }

  // ---------------------------------------------------------------------------------------
  // Properties.

  /** Toggling a section twice restores the list, whether the id is found or not. */
  lemma ToggleSectionStatusTwice(ss: seq<Section>, id: string)
    ensures ToggleSectionStatus(ToggleSectionStatus(ss, id).state, id).state == ss
  {
    var r1 := ToggleSectionStatus(ss, id);
    if FirstIndex(ss, SectionIdIs(id)).Some? {
      var i := FirstIndex(ss, SectionIdIs(id)).value;
      assert IsFirstSection(r1.state, id, i);
    }
  }

  /** Toggling an item twice restores the list, whether the ids are found or not. */
  lemma ToggleItemStatusTwice(ss: seq<Section>, sectionId: string, itemId: string)
    ensures ToggleItemStatus(ToggleItemStatus(ss, sectionId, itemId).state, sectionId, itemId).state == ss
  {
    match LocateItem(ss, sectionId, itemId)
    case Err(_) =>
    case Ok((i, j)) =>
      var it := ss[i].items[j];
      var t := it.(status := !it.status);
      var s1 := WithItem(ss, i, j, t);
      assert ToggleItemStatus(ss, sectionId, itemId).state == s1;
      FirstItemKept(ss, sectionId, itemId, i, j, t);
      assert s1[i].items[j] == t;
      assert ToggleItemStatus(s1, sectionId, itemId).state == WithItem(s1, i, j, it);
      WithItemRestores(ss, i, j, t);
  }

  /** Toggling a bullet twice restores the list, whether the ids are found or not. */
  lemma ToggleBulletStatusTwice(ss: seq<Section>, sectionId: string, itemId: string, bulletId: string)
    ensures ToggleBulletStatus(ToggleBulletStatus(ss, sectionId, itemId, bulletId).state, sectionId, itemId, bulletId).state == ss
  {
    match LocateBullet(ss, sectionId, itemId, bulletId)
    case Err(_) =>
    case Ok((i, j, k)) =>
      var b := ss[i].items[j].bulletPoints[k];
      var t := b.(status := !b.status);
      var s1 := WithBullet(ss, i, j, k, t);
      assert ToggleBulletStatus(ss, sectionId, itemId, bulletId).state == s1;
      FirstBulletKept(ss, sectionId, itemId, bulletId, i, j, k, t);
      assert s1[i].items[j].bulletPoints[k] == t;
      assert ToggleBulletStatus(s1, sectionId, itemId, bulletId).state == WithBullet(s1, i, j, k, b);
      WithBulletRestores(ss, i, j, k, t);
  }

  /** Replacing an item by one with the same id keeps it the item the lookup finds. */
  lemma FirstItemKept(ss: seq<Section>, sectionId: string, itemId: string, i: nat, j: nat, it: Item)
    requires IsFirstSection(ss, sectionId, i) && IsFirstItem(ss[i].items, itemId, j)
    requires it.id == ss[i].items[j].id
    ensures LocateItem(WithItem(ss, i, j, it), sectionId, itemId) == Ok((i, j))
  {
    var s1 := WithItem(ss, i, j, it);
    assert forall k :: 0 <= k < |ss| ==> s1[k].id == ss[k].id;
    assert forall k :: 0 <= k < |ss[i].items| ==> s1[i].items[k].id == ss[i].items[k].id;
    FirstItemIsUnique(s1, sectionId, itemId, i, j);
  }

  lemma FirstBulletKept(ss: seq<Section>, sectionId: string, itemId: string, bulletId: string,
                        i: nat, j: nat, k: nat, b: BulletPoint)
    requires IsFirstSection(ss, sectionId, i) && IsFirstItem(ss[i].items, itemId, j)
    requires IsFirstBullet(ss[i].items[j].bulletPoints, bulletId, k)
    requires b.id == ss[i].items[j].bulletPoints[k].id
    ensures LocateBullet(WithBullet(ss, i, j, k, b), sectionId, itemId, bulletId) == Ok((i, j, k))
  {
    var s1 := WithBullet(ss, i, j, k, b);
    assert forall m :: 0 <= m < |ss| ==> s1[m].id == ss[m].id;
    assert forall m :: 0 <= m < |ss[i].items| ==> s1[i].items[m].id == ss[i].items[m].id;
    assert forall m :: 0 <= m < |ss[i].items[j].bulletPoints| ==>
      s1[i].items[j].bulletPoints[m].id == ss[i].items[j].bulletPoints[m].id;
    FirstBulletIsUnique(s1, sectionId, itemId, bulletId, i, j, k);
  }

  lemma WithItemRestores(ss: seq<Section>, i: nat, j: nat, it: Item)
    requires i < |ss| && j < |ss[i].items|
    ensures WithItem(WithItem(ss, i, j, it), i, j, ss[i].items[j]) == ss
  {
    assert WithItem(ss, i, j, it)[i].items[j := ss[i].items[j]] == ss[i].items;
  }

  lemma WithBulletRestores(ss: seq<Section>, i: nat, j: nat, k: nat, b: BulletPoint)
    requires i < |ss| && j < |ss[i].items| && k < |ss[i].items[j].bulletPoints|
    ensures WithBullet(WithBullet(ss, i, j, k, b), i, j, k, ss[i].items[j].bulletPoints[k]) == ss
  {
    var it := ss[i].items[j];
    var s1 := WithBullet(ss, i, j, k, b);
    assert s1[i].items[j].bulletPoints[k := it.bulletPoints[k]] == it.bulletPoints;
    assert s1[i].items[j].(bulletPoints := it.bulletPoints) == it;
    assert s1[i].items[j := it] == ss[i].items;
  }

  /** The lookup finds exactly the first matches. */
  lemma FirstItemIsUnique(ss: seq<Section>, sectionId: string, itemId: string, i: nat, j: nat)
    requires IsFirstSection(ss, sectionId, i) && IsFirstItem(ss[i].items, itemId, j)
    ensures LocateItem(ss, sectionId, itemId) == Ok((i, j))
  {
  }

  lemma FirstBulletIsUnique(ss: seq<Section>, sectionId: string, itemId: string, bulletId: string, i: nat, j: nat, k: nat)
    requires IsFirstSection(ss, sectionId, i) && IsFirstItem(ss[i].items, itemId, j)
    requires IsFirstBullet(ss[i].items[j].bulletPoints, bulletId, k)
    ensures LocateBullet(ss, sectionId, itemId, bulletId) == Ok((i, j, k))
  {
    FirstItemIsUnique(ss, sectionId, itemId, i, j);
  }

  /** A scan that meets no section with the id ends in "Section not found". */
  lemma LocateItemNoSection(ss: seq<Section>, sectionId: string, itemId: string)
    requires forall k :: 0 <= k < |ss| ==> ss[k].id != sectionId
    ensures LocateItem(ss, sectionId, itemId) == Err(SectionNotFound)
  {
    assert FirstIndex(ss, SectionIdIs(sectionId)).None?;
  }

  /** A scan of the first matching section that meets no item with the id ends in "Item not found". */
  lemma LocateItemNoItem(ss: seq<Section>, sectionId: string, itemId: string, i: nat)
    requires IsFirstSection(ss, sectionId, i)
    requires forall k :: 0 <= k < |ss[i].items| ==> ss[i].items[k].id != itemId
    ensures LocateItem(ss, sectionId, itemId) == Err(ItemNotFound)
  {
    assert FirstIndex(ss, SectionIdIs(sectionId)) == Some(i);
    assert FirstIndex(ss[i].items, ItemIdIs(itemId)).None?;
  }

  /** A scan of the matched item that meets no bullet with the id ends in "Bullet point not found". */
  lemma LocateBulletNoBullet(ss: seq<Section>, sectionId: string, itemId: string, bulletId: string, i: nat, j: nat)
    requires IsFirstSection(ss, sectionId, i) && IsFirstItem(ss[i].items, itemId, j)
    requires forall k :: 0 <= k < |ss[i].items[j].bulletPoints| ==> ss[i].items[j].bulletPoints[k].id != bulletId
    ensures LocateBullet(ss, sectionId, itemId, bulletId) == Err(BulletNotFound)
  {
    FirstItemIsUnique(ss, sectionId, itemId, i, j);
    assert FirstIndex(ss[i].items[j].bulletPoints, BulletIdIs(bulletId)).None?;
  }

  /** No two sections share an id. */
  ghost predicate SectionIdsUnique(ss: seq<Section>)
  {
    forall i, j :: 0 <= i < j < |ss| ==> ss[i].id != ss[j].id
  }

  /** With unique ids, popping the first match is the editor's filter on the id. */
  lemma RemoveSectionAgreesWithEditor(ss: seq<Section>, id: string)
    requires SectionIdsUnique(ss)
    ensures RemoveSection(ss, id).state == Editor.RemoveSection(ss, id)
  {
    var p := Hook.SectionIdIsNot(id);
    assert Editor.RemoveSection(ss, id) == Filter(p, ss);
    match FirstIndex(ss, SectionIdIs(id))
    case None =>
      FilterAll(p, ss);
    case Some(i) =>
      assert forall k :: 0 <= k < |ss| && k != i ==> ss[k].id != ss[i].id;
      FilterRemovesOne(p, ss, i);
  }

  /** With unique section ids, the editor appending the returned item reproduces the server's list. */
  lemma AddItemAgreesWithEditor(ss: seq<Section>, sectionId: string, freshId: string)
    requires SectionIdsUnique(ss)
    ensures AddItem(ss, sectionId, freshId).response.Success? ==>
      Editor.AddItem(ss, sectionId, AddItem(ss, sectionId, freshId).response.body.item) == AddItem(ss, sectionId, freshId).state
  {
    var r := AddItem(ss, sectionId, freshId);
    if r.response.Success? {
      var e := Editor.AddItem(ss, sectionId, r.response.body.item);
      assert forall k :: 0 <= k < |ss| ==> e[k] == r.state[k];
    }
  }

  /** With unique ids at every level, the editor appending the returned bullet reproduces the server's list. */
  lemma AddBulletPointAgreesWithEditor(ss: seq<Section>, sectionId: string, itemId: string, freshId: string)
    requires WellFormed(ss)
    ensures AddBulletPoint(ss, sectionId, itemId, freshId).response.Success? ==>
      Editor.AddBulletPoint(ss, sectionId, itemId, AddBulletPoint(ss, sectionId, itemId, freshId).response.body.bullet)
      == AddBulletPoint(ss, sectionId, itemId, freshId).state
  {
    var r := AddBulletPoint(ss, sectionId, itemId, freshId);
    if r.response.Success? {
      var (i, j) := LocateItem(ss, sectionId, itemId).value;
      var e := Editor.AddBulletPoint(ss, sectionId, itemId, r.response.body.bullet);
      forall k | 0 <= k < |ss|
        ensures e[k] == r.state[k]
      {
        if k == i {
          assert ss[i] in ss;
          forall m | 0 <= m < |ss[i].items|
            ensures e[k].items[m] == r.state[k].items[m]
          {
          }
        }
      }
    }
  }

  /** With unique section ids, the server's toggle is the local hook's toggle. */
  lemma ToggleSectionStatusAgreesWithHook(ss: seq<Section>, id: string)
    requires SectionIdsUnique(ss)
    ensures ToggleSectionStatus(ss, id).state == Hook.ToggleSectionStatus(Resume(ss), id).sections
  {
  }
}
