/**
 * The transitions of the local-storage-backed editor hook: each one maps the current resume to
 * the next (the callback handed to `update`). Fresh identifiers, produced by
 * `crypto.randomUUID()` in the source, are parameters.
 */
module Hook {
  import opened Wrappers
  import opened JsonValue
  import opened Models
  import opened Seqs
  import opened Tree

  /** The standard section `addSection` appends (its rich-text title stays null). */
  function NewSection(id: string): Section
  {
    Section(id, "Section", "New Section", true, false, JNull, [])
  }

  /** The raw-LaTeX section `addLaTeX` appends. */
  function NewLatexSection(id: string): Section
  {
    Section(id, "LaTeX", "", true, false, JNull, [])
  }

  /** The item `addItem` appends, with Tiptap documents for its title and organization. */
  function NewItem(id: string): Item
  {
    Item(id, "Item", "New Item", "Organization", "", "", "", true, false,
         DocOf("New Item"), DocOf("Organization"), [])
  }

  /** The bullet `addBulletPoint` appends. */
  function NewBullet(id: string): BulletPoint
  {
    BulletPoint(id, "Bullet", "New bullet", None, DocOf("New bullet"), true)
  }

  function AddSection(r: Resume, freshId: string): (r': Resume)
    ensures |r'.sections| == |r.sections| + 1 && r'.sections[..|r.sections|] == r.sections
    ensures var s := r'.sections[|r.sections|];
      s.id == freshId && s.kind == "Section" && s.title == "New Section" && s.status
      && !s.isCollapsed && s.json == JNull && s.items == []
  {
    Resume(r.sections + [NewSection(freshId)])
  }

  /**
   * The section `addSection` evidently means to append: the one the backend creates, whose
   * rich-text title is a Tiptap document holding "New Section" rather than null.
   */
  function NewSectionIntended(id: string): Section
  {
    Section(id, "Section", "New Section", true, false, DocOf("New Section"), [])
  }

  function AddSectionIntended(r: Resume, freshId: string): (r': Resume)
    ensures |r'.sections| == |r.sections| + 1 && r'.sections[..|r.sections|] == r.sections
    ensures var s := r'.sections[|r.sections|];
      s.id == freshId && s.kind == "Section" && s.title == "New Section" && s.status
      && !s.isCollapsed && s.json == DocOf("New Section") && s.items == []
  {
    Resume(r.sections + [NewSectionIntended(freshId)])
  }

  function AddLaTeX(r: Resume, freshId: string): (r': Resume)
    ensures |r'.sections| == |r.sections| + 1 && r'.sections[..|r.sections|] == r.sections
    ensures var s := r'.sections[|r.sections|];
      s.id == freshId && s.kind == "LaTeX" && s.title == "" && s.status
      && !s.isCollapsed && s.json == JNull && s.items == []
  {
    Resume(r.sections + [NewLatexSection(freshId)])
  }

  function AddItem(r: Resume, sectionId: string, freshId: string): (r': Resume)
    ensures |r'.sections| == |r.sections|
    ensures forall i :: 0 <= i < |r.sections| && r.sections[i].id != sectionId ==> r'.sections[i] == r.sections[i]
    ensures forall i :: 0 <= i < |r.sections| && r.sections[i].id == sectionId ==>
      var s, s' := r.sections[i], r'.sections[i];
      s'.(items := s.items) == s && |s'.items| == |s.items| + 1
      && s'.items[..|s.items|] == s.items && s'.items[|s.items|] == NewItem(freshId)
  {
    Resume(MapSections(r.sections, sectionId, (s: Section) => s.(items := s.items + [NewItem(freshId)])))
  }

  function AddBulletPoint(r: Resume, sectionId: string, itemId: string, freshId: string): (r': Resume)
    ensures |r'.sections| == |r.sections|
    ensures forall i :: 0 <= i < |r.sections| && r.sections[i].id != sectionId ==> r'.sections[i] == r.sections[i]
    ensures forall i :: 0 <= i < |r.sections| && r.sections[i].id == sectionId ==>
      var s, s' := r.sections[i], r'.sections[i];
      s'.(items := s.items) == s && |s'.items| == |s.items|
      && forall j :: 0 <= j < |s.items| ==>
        var it, it' := s.items[j], s'.items[j];
        if it.id != itemId then it' == it
        else it'.(bulletPoints := it.bulletPoints) == it && it'.bulletPoints == it.bulletPoints + [NewBullet(freshId)]
  {
    Resume(MapSections(r.sections, sectionId,
      (s: Section) => s.(items := MapItems(s.items, itemId,
        (it: Item) => it.(bulletPoints := it.bulletPoints + [NewBullet(freshId)])))))
  }

  /** Predicates handed to `filter`. */
  function SectionIdIsNot(id: string): Section -> bool { (s: Section) => s.id != id }
  function ItemIdIsNot(id: string): Item -> bool { (it: Item) => it.id != id }
  function BulletIdIsNot(id: string): BulletPoint -> bool { (b: BulletPoint) => b.id != id }

  function RemoveSection(r: Resume, sectionId: string): (r': Resume)
    ensures forall s :: s in r'.sections ==> s in r.sections && s.id != sectionId
    ensures forall s :: s in r.sections && s.id != sectionId ==> s in r'.sections
    ensures forall s :: multiset(r'.sections)[s] == if s.id != sectionId then multiset(r.sections)[s] else 0
  {
    FilterCounts(SectionIdIsNot(sectionId));
    Resume(Filter(SectionIdIsNot(sectionId), r.sections))
  }

  function RemoveItem(r: Resume, sectionId: string, itemId: string): (r': Resume)
    ensures |r'.sections| == |r.sections|
    ensures forall i :: 0 <= i < |r.sections| ==>
      var s, s' := r.sections[i], r'.sections[i];
      s'.(items := s.items) == s
      && (s.id != sectionId ==> s' == s)
      && (s.id == sectionId ==>
            (forall it :: it in s'.items ==> it in s.items && it.id != itemId)
            && (forall it :: it in s.items && it.id != itemId ==> it in s'.items)
            && (forall it :: multiset(s'.items)[it] == if it.id != itemId then multiset(s.items)[it] else 0))
  {
    FilterCounts(ItemIdIsNot(itemId));
    Resume(MapSections(r.sections, sectionId, (s: Section) => s.(items := Filter(ItemIdIsNot(itemId), s.items))))
  }

  function RemoveBulletPoint(r: Resume, sectionId: string, itemId: string, bulletId: string): (r': Resume)
    ensures |r'.sections| == |r.sections|
    ensures forall i :: 0 <= i < |r.sections| ==>
      var s, s' := r.sections[i], r'.sections[i];
      s'.(items := s.items) == s && |s'.items| == |s.items|
      && (s.id != sectionId ==> s' == s)
      && forall j :: 0 <= j < |s.items| ==>
        var it, it' := s.items[j], s'.items[j];
        it'.(bulletPoints := it.bulletPoints) == it
        && (s.id != sectionId || it.id != itemId ==> it' == it)
        && (s.id == sectionId && it.id == itemId ==>
              (forall b :: b in it'.bulletPoints ==> b in it.bulletPoints && b.id != bulletId)
              && (forall b :: b in it.bulletPoints && b.id != bulletId ==> b in it'.bulletPoints)
              && (forall b :: multiset(it'.bulletPoints)[b] ==
                    if b.id != bulletId then multiset(it.bulletPoints)[b] else 0))
  {
    FilterCounts(BulletIdIsNot(bulletId));
    Resume(MapSections(r.sections, sectionId,
      (s: Section) => s.(items := MapItems(s.items, itemId,
        (it: Item) => it.(bulletPoints := Filter(BulletIdIsNot(bulletId), it.bulletPoints))))))
  }

  /** The raw text of a LaTeX block is stored in the section's `json` field, as a string. */
  function UpdateLatexContent(r: Resume, sectionId: string, newContent: string): (r': Resume)
    ensures |r'.sections| == |r.sections|
    ensures forall i :: 0 <= i < |r.sections| ==>
      var s, s' := r.sections[i], r'.sections[i];
      s'.(json := s.json) == s && s'.json == (if s.id == sectionId then JStr(newContent) else s.json)
  {
    Resume(MapSections(r.sections, sectionId, (s: Section) => s.(json := JStr(newContent))))
  }

  function ToggleSectionStatus(r: Resume, sectionId: string): (r': Resume)
    ensures |r'.sections| == |r.sections|
    ensures forall i :: 0 <= i < |r.sections| ==>
      var s, s' := r.sections[i], r'.sections[i];
      s'.(status := s.status) == s && s'.status == (s.status != (s.id == sectionId))
  {
    Resume(MapSections(r.sections, sectionId, (s: Section) => s.(status := !s.status)))
  }

  function ToggleItemStatus(r: Resume, sectionId: string, itemId: string): (r': Resume)
    ensures |r'.sections| == |r.sections|
    ensures forall i :: 0 <= i < |r.sections| ==>
      var s, s' := r.sections[i], r'.sections[i];
      s'.(items := s.items) == s && |s'.items| == |s.items|
      && forall j :: 0 <= j < |s.items| ==>
        var it, it' := s.items[j], s'.items[j];
        it'.(status := it.status) == it && it'.status == (it.status != (s.id == sectionId && it.id == itemId))
  {
    Resume(MapSections(r.sections, sectionId,
      (s: Section) => s.(items := MapItems(s.items, itemId, (it: Item) => it.(status := !it.status)))))
  }

  function ToggleBulletStatus(r: Resume, sectionId: string, itemId: string, bulletId: string): (r': Resume)
    ensures |r'.sections| == |r.sections|
    ensures forall i :: 0 <= i < |r.sections| ==>
      var s, s' := r.sections[i], r'.sections[i];
      s'.(items := s.items) == s && |s'.items| == |s.items|
      && forall j :: 0 <= j < |s.items| ==>
        var it, it' := s.items[j], s'.items[j];
        it'.(bulletPoints := it.bulletPoints) == it && |it'.bulletPoints| == |it.bulletPoints|
        && forall k :: 0 <= k < |it.bulletPoints| ==>
          var b, b' := it.bulletPoints[k], it'.bulletPoints[k];
          b'.(status := b.status) == b
          && b'.status == (b.status != (s.id == sectionId && it.id == itemId && b.id == bulletId))
  {
    Resume(MapSections(r.sections, sectionId,
      (s: Section) => s.(items := MapItems(s.items, itemId,
        (it: Item) => it.(bulletPoints := MapBullets(it.bulletPoints, bulletId, (b: BulletPoint) => b.(status := !b.status)))))))
  }

  function UpdateSectionTitle(r: Resume, sectionId: string, newTitle: string, newJson: Json): (r': Resume)
    ensures |r'.sections| == |r.sections|
    ensures forall i :: 0 <= i < |r.sections| ==>
      var s, s' := r.sections[i], r'.sections[i];
      s'.(title := s.title, json := s.json) == s
      && (s.id == sectionId ==> s'.title == newTitle && s'.json == newJson)
      && (s.id != sectionId ==> s' == s)
  {
    Resume(MapSections(r.sections, sectionId, (s: Section) => s.(title := newTitle, json := newJson)))
  }

  /** `{ ...item, ...updatedItem }` on the matched item of the matched section. */
  function UpdateItem(r: Resume, sectionId: string, itemId: string, updated: seq<ItemField>): (r': Resume)
    ensures |r'.sections| == |r.sections|
    ensures forall i :: 0 <= i < |r.sections| ==>
      var s, s' := r.sections[i], r'.sections[i];
      s'.(items := s.items) == s && |s'.items| == |s.items|
      && forall j :: 0 <= j < |s.items| ==>
        s'.items[j] == if s.id == sectionId && s.items[j].id == itemId
                       then ApplyFields(s.items[j], updated) else s.items[j]
  {
    Resume(MapSections(r.sections, sectionId,
      (s: Section) => s.(items := MapItems(s.items, itemId, (it: Item) => ApplyFields(it, updated)))))
  }

  function UpdateBulletText(r: Resume, sectionId: string, itemId: string, bulletId: string,
                            newText: string, newJson: Json): (r': Resume)
    ensures |r'.sections| == |r.sections|
    ensures forall i :: 0 <= i < |r.sections| ==>
      var s, s' := r.sections[i], r'.sections[i];
      s'.(items := s.items) == s && |s'.items| == |s.items|
      && forall j :: 0 <= j < |s.items| ==>
        var it, it' := s.items[j], s'.items[j];
        it'.(bulletPoints := it.bulletPoints) == it && |it'.bulletPoints| == |it.bulletPoints|
        && forall k :: 0 <= k < |it.bulletPoints| ==>
          var b, b' := it.bulletPoints[k], it'.bulletPoints[k];
          b'.(text := b.text, json := b.json) == b
          && (s.id == sectionId && it.id == itemId && b.id == bulletId ==> b'.text == newText && b'.json == newJson)
          && (s.id != sectionId || it.id != itemId || b.id != bulletId ==> b' == b)
  {
    Resume(MapSections(r.sections, sectionId,
      (s: Section) => s.(items := MapItems(s.items, itemId,
        (it: Item) => it.(bulletPoints := MapBullets(it.bulletPoints, bulletId, (b: BulletPoint) => b.(text := newText, json := newJson)))))))
  }

  function MoveSection(r: Resume, dragIndex: nat, hoverIndex: nat): (r': Resume)
    requires dragIndex < |r.sections| && hoverIndex < |r.sections|
    ensures |r'.sections| == |r.sections| && r'.sections[hoverIndex] == r.sections[dragIndex]
    ensures multiset(r'.sections) == multiset(r.sections)
  {
    MovePermutes(r.sections, dragIndex, hoverIndex);
    Resume(Move(r.sections, dragIndex, hoverIndex))
  }

  /** Every section with this id has both indices in range for its items. */
  ghost predicate ItemIndicesValid(r: Resume, sectionId: string, dragIndex: nat, hoverIndex: nat)
  {
    forall s :: s in r.sections && s.id == sectionId ==> dragIndex < |s.items| && hoverIndex < |s.items|
  }

  function MoveItemsOf(s: Section, dragIndex: nat, hoverIndex: nat): (s': Section)
    ensures s'.(items := s.items) == s
    ensures dragIndex < |s.items| && hoverIndex < |s.items| ==>
      |s'.items| == |s.items| && s'.items[hoverIndex] == s.items[dragIndex]
      && multiset(s'.items) == multiset(s.items)
  {
    if dragIndex < |s.items| && hoverIndex < |s.items| then
      MovePermutes(s.items, dragIndex, hoverIndex);
      s.(items := Move(s.items, dragIndex, hoverIndex))
    else s
  }

  function MoveItem(r: Resume, sectionId: string, dragIndex: nat, hoverIndex: nat): (r': Resume)
    requires ItemIndicesValid(r, sectionId, dragIndex, hoverIndex)
    ensures |r'.sections| == |r.sections|
    ensures forall i :: 0 <= i < |r.sections| ==>
      var s, s' := r.sections[i], r'.sections[i];
      s'.(items := s.items) == s
      && (s.id != sectionId ==> s' == s)
      && (s.id == sectionId ==>
            |s'.items| == |s.items| && s'.items[hoverIndex] == s.items[dragIndex]
            && multiset(s'.items) == multiset(s.items))
  {
    var r' := Resume(MapSections(r.sections, sectionId, (s: Section) => MoveItemsOf(s, dragIndex, hoverIndex)));
    assert forall i :: 0 <= i < |r.sections| ==> r.sections[i] in r.sections;
    r'
  }

  /** Every matched item of every matched section has both indices in range for its bullets. */
  ghost predicate BulletIndicesValid(r: Resume, sectionId: string, itemId: string, dragIndex: nat, hoverIndex: nat)
  {
    forall s, it :: s in r.sections && s.id == sectionId && it in s.items && it.id == itemId ==>
      dragIndex < |it.bulletPoints| && hoverIndex < |it.bulletPoints|
  }

  function MoveBulletsOf(it: Item, dragIndex: nat, hoverIndex: nat): (it': Item)
    ensures it'.(bulletPoints := it.bulletPoints) == it
    ensures dragIndex < |it.bulletPoints| && hoverIndex < |it.bulletPoints| ==>
      |it'.bulletPoints| == |it.bulletPoints| && it'.bulletPoints[hoverIndex] == it.bulletPoints[dragIndex]
      && multiset(it'.bulletPoints) == multiset(it.bulletPoints)
  {
    if dragIndex < |it.bulletPoints| && hoverIndex < |it.bulletPoints| then
      MovePermutes(it.bulletPoints, dragIndex, hoverIndex);
      it.(bulletPoints := Move(it.bulletPoints, dragIndex, hoverIndex))
    else it
  }

  function MoveBulletPoint(r: Resume, sectionId: string, itemId: string, dragIndex: nat, hoverIndex: nat): (r': Resume)
    requires BulletIndicesValid(r, sectionId, itemId, dragIndex, hoverIndex)
    ensures |r'.sections| == |r.sections|
    ensures forall i :: 0 <= i < |r.sections| ==>
      var s, s' := r.sections[i], r'.sections[i];
      s'.(items := s.items) == s && |s'.items| == |s.items|
      && forall j :: 0 <= j < |s.items| ==>
        var it, it' := s.items[j], s'.items[j];
        it'.(bulletPoints := it.bulletPoints) == it
        && (s.id != sectionId || it.id != itemId ==> it' == it)
        && (s.id == sectionId && it.id == itemId ==>
              |it'.bulletPoints| == |it.bulletPoints| && it'.bulletPoints[hoverIndex] == it.bulletPoints[dragIndex]
              && multiset(it'.bulletPoints) == multiset(it.bulletPoints))
  {
    var r' := Resume(MapSections(r.sections, sectionId,
      (s: Section) => s.(items := MapItems(s.items, itemId, (it: Item) => MoveBulletsOf(it, dragIndex, hoverIndex)))));
    assert forall i, j :: 0 <= i < |r.sections| && 0 <= j < |r.sections[i].items| ==>
      r.sections[i] in r.sections && r.sections[i].items[j] in r.sections[i].items;
    r'
  }

  // ---------------------------------------------------------------------------------------
  // Properties of the transitions.

  /** Toggling a section's visibility twice restores the resume. */
  lemma ToggleSectionStatusTwice(r: Resume, sectionId: string)
    ensures ToggleSectionStatus(ToggleSectionStatus(r, sectionId), sectionId) == r
  {
    var r2 := ToggleSectionStatus(ToggleSectionStatus(r, sectionId), sectionId);
    assert r2.sections == r.sections;
  }

  /** Toggling an item's visibility twice restores the resume. */
  lemma ToggleItemStatusTwice(r: Resume, sectionId: string, itemId: string)
    ensures ToggleItemStatus(ToggleItemStatus(r, sectionId, itemId), sectionId, itemId) == r
  {
    var r2 := ToggleItemStatus(ToggleItemStatus(r, sectionId, itemId), sectionId, itemId);
    forall i | 0 <= i < |r.sections|
      ensures r2.sections[i] == r.sections[i]
    {
      assert r2.sections[i].items == r.sections[i].items;
    }
    assert r2.sections == r.sections;
  }

  /** Toggling a bullet's visibility twice restores the resume. */
  lemma ToggleBulletStatusTwice(r: Resume, sectionId: string, itemId: string, bulletId: string)
    ensures ToggleBulletStatus(ToggleBulletStatus(r, sectionId, itemId, bulletId), sectionId, itemId, bulletId) == r
  {
    var r2 := ToggleBulletStatus(ToggleBulletStatus(r, sectionId, itemId, bulletId), sectionId, itemId, bulletId);
    forall i | 0 <= i < |r.sections|
      ensures r2.sections[i] == r.sections[i]
    {
      var s, s2 := r.sections[i], r2.sections[i];
      forall j | 0 <= j < |s.items|
        ensures s2.items[j] == s.items[j]
      {
        assert s2.items[j].bulletPoints == s.items[j].bulletPoints;
      }
      assert s2.items == s.items;
    }
    assert r2.sections == r.sections;
  }

  /** Removing sections keeps the survivors in their original relative order. */
  lemma RemoveSectionKeepsOrder(r: Resume, sectionId: string)
    ensures IsSubsequence(RemoveSection(r, sectionId).sections, r.sections)
  {
    FilterIsSubsequence(SectionIdIsNot(sectionId), r.sections);
  }

  /** Removing items keeps the surviving items of the section in their original relative order. */
  lemma RemoveItemKeepsOrder(r: Resume, sectionId: string, itemId: string, i: nat)
    requires i < |r.sections|
    ensures IsSubsequence(RemoveItem(r, sectionId, itemId).sections[i].items, r.sections[i].items)
  {
    if r.sections[i].id == sectionId {
      FilterIsSubsequence(ItemIdIsNot(itemId), r.sections[i].items);
    } else {
      SubsequenceRefl(r.sections[i].items);
    }
  }

  /** Removing bullets keeps the surviving bullets of the item in their original relative order. */
  lemma RemoveBulletPointKeepsOrder(r: Resume, sectionId: string, itemId: string, bulletId: string, i: nat, j: nat)
    requires i < |r.sections| && j < |r.sections[i].items|
    ensures IsSubsequence(RemoveBulletPoint(r, sectionId, itemId, bulletId).sections[i].items[j].bulletPoints,
                          r.sections[i].items[j].bulletPoints)
  {
    var it := r.sections[i].items[j];
    if r.sections[i].id == sectionId && it.id == itemId {
      FilterIsSubsequence(BulletIdIsNot(bulletId), it.bulletPoints);
    } else {
      SubsequenceRefl(it.bulletPoints);
    }
  }

  lemma {:induction false} SubsequenceRefl<T>(s: seq<T>)
    ensures IsSubsequence(s, s)
    decreases |s|
  {
    if s != [] {
      SubsequenceRefl(s[1..]);
    }
  }

  /** Dropping a section onto its own position changes nothing. */
  lemma MoveSectionSelf(r: Resume, i: nat)
    requires i < |r.sections|
    ensures MoveSection(r, i, i) == r
  {
    MoveSelf(r.sections, i);
  }

  /** Moving a section from i to j and then from j to i restores the resume. */
  lemma MoveSectionBack(r: Resume, i: nat, j: nat)
    requires i < |r.sections| && j < |r.sections|
    ensures MoveSection(MoveSection(r, i, j), j, i) == r
  {
    MoveBack(r.sections, i, j);
  }

  /** Dropping an item onto its own position changes nothing. */
  lemma MoveItemSelf(r: Resume, sectionId: string, i: nat)
    requires ItemIndicesValid(r, sectionId, i, i)
    ensures MoveItem(r, sectionId, i, i) == r
  {
    var r2 := MoveItem(r, sectionId, i, i);
    forall k | 0 <= k < |r.sections|
      ensures r2.sections[k] == r.sections[k]
    {
      if r.sections[k].id == sectionId {
        assert r.sections[k] in r.sections;
        MoveSelf(r.sections[k].items, i);
      }
    }
    assert r2.sections == r.sections;
  }

  /** Moving an item from i to j and then from j to i restores the resume. */
  lemma MoveItemBack(r: Resume, sectionId: string, i: nat, j: nat)
    requires ItemIndicesValid(r, sectionId, i, j)
    ensures ItemIndicesValid(MoveItem(r, sectionId, i, j), sectionId, j, i)
    ensures MoveItem(MoveItem(r, sectionId, i, j), sectionId, j, i) == r
  {
    var r1 := MoveItem(r, sectionId, i, j);
    forall s1 | s1 in r1.sections && s1.id == sectionId
      ensures j < |s1.items| && i < |s1.items|
    {
      var k :| 0 <= k < |r1.sections| && r1.sections[k] == s1;
      assert r.sections[k] in r.sections;
    }
    var r2 := MoveItem(r1, sectionId, j, i);
    forall k | 0 <= k < |r.sections|
      ensures r2.sections[k] == r.sections[k]
    {
      if r.sections[k].id == sectionId {
        assert r.sections[k] in r.sections;
        assert r1.sections[k].items == Move(r.sections[k].items, i, j);
        MoveBack(r.sections[k].items, i, j);
      }
    }
    assert r2.sections == r.sections;
  }

  /** Dropping a bullet onto its own position changes nothing. */
  lemma MoveBulletPointSelf(r: Resume, sectionId: string, itemId: string, i: nat)
    requires BulletIndicesValid(r, sectionId, itemId, i, i)
    ensures MoveBulletPoint(r, sectionId, itemId, i, i) == r
  {
    var r2 := MoveBulletPoint(r, sectionId, itemId, i, i);
    forall k | 0 <= k < |r.sections|
      ensures r2.sections[k] == r.sections[k]
    {
      var s := r.sections[k];
      forall m | 0 <= m < |s.items|
        ensures r2.sections[k].items[m] == s.items[m]
      {
        if s.id == sectionId && s.items[m].id == itemId {
          assert s in r.sections && s.items[m] in s.items;
          MoveSelf(s.items[m].bulletPoints, i);
        }
      }
      assert r2.sections[k].items == s.items;
    }
    assert r2.sections == r.sections;
  }

  /** Moving a bullet from i to j and then from j to i restores the resume. */
  lemma MoveBulletPointBack(r: Resume, sectionId: string, itemId: string, i: nat, j: nat)
    requires BulletIndicesValid(r, sectionId, itemId, i, j)
    ensures BulletIndicesValid(MoveBulletPoint(r, sectionId, itemId, i, j), sectionId, itemId, j, i)
    ensures MoveBulletPoint(MoveBulletPoint(r, sectionId, itemId, i, j), sectionId, itemId, j, i) == r
  {
    var r1 := MoveBulletPoint(r, sectionId, itemId, i, j);
    forall s1, it1 | s1 in r1.sections && s1.id == sectionId && it1 in s1.items && it1.id == itemId
      ensures j < |it1.bulletPoints| && i < |it1.bulletPoints|
    {
      var k :| 0 <= k < |r1.sections| && r1.sections[k] == s1;
      var m :| 0 <= m < |s1.items| && s1.items[m] == it1;
      assert r.sections[k] in r.sections && r.sections[k].items[m] in r.sections[k].items;
    }
    var r2 := MoveBulletPoint(r1, sectionId, itemId, j, i);
    forall k | 0 <= k < |r.sections|
      ensures r2.sections[k] == r.sections[k]
    {
      var s := r.sections[k];
      forall m | 0 <= m < |s.items|
        ensures r2.sections[k].items[m] == s.items[m]
      {
        if s.id == sectionId && s.items[m].id == itemId {
          assert s in r.sections && s.items[m] in s.items;
          assert r1.sections[k].items[m].bulletPoints == Move(s.items[m].bulletPoints, i, j);
          MoveBack(s.items[m].bulletPoints, i, j);
        }
      }
      assert r2.sections[k].items == s.items;
    }
    assert r2.sections == r.sections;
  }

  /** A section appended with an unused id keeps identifiers unique. */
  lemma AddSectionKeepsIdsUnique(r: Resume, freshId: string)
    requires WellFormed(r.sections) && !SectionIdUsed(r.sections, freshId)
    ensures WellFormed(AddSection(r, freshId).sections)
  {
    var ss := AddSection(r, freshId).sections;
    assert ss == r.sections + [NewSection(freshId)];
    forall i | 0 <= i < |r.sections|
      ensures ss[i].id != freshId
    {
      assert r.sections[i] in r.sections;
    }
  }

  /** An item appended with an id used by no item keeps identifiers unique. */
  lemma AddItemKeepsIdsUnique(r: Resume, sectionId: string, freshId: string)
    requires WellFormed(r.sections) && !ItemIdUsed(r.sections, freshId)
    ensures WellFormed(AddItem(r, sectionId, freshId).sections)
  {
    var ss := AddItem(r, sectionId, freshId).sections;
    forall s' | s' in ss
      ensures ItemsWellFormed(s'.items)
    {
      var i :| 0 <= i < |ss| && ss[i] == s';
      var s := r.sections[i];
      assert s in r.sections;
      if s.id == sectionId {
        assert s'.items == s.items + [NewItem(freshId)];
        forall j | 0 <= j < |s.items|
          ensures s.items[j].id != freshId
        {
          assert s.items[j] in s.items;
        }
      }
    }
  }

  /** A bullet appended with an id used by no bullet keeps identifiers unique. */
  lemma AddBulletPointKeepsIdsUnique(r: Resume, sectionId: string, itemId: string, freshId: string)
    requires WellFormed(r.sections) && !BulletIdUsed(r.sections, freshId)
    ensures WellFormed(AddBulletPoint(r, sectionId, itemId, freshId).sections)
  {
    var ss := AddBulletPoint(r, sectionId, itemId, freshId).sections;
    forall s' | s' in ss
      ensures ItemsWellFormed(s'.items)
    {
      var i :| 0 <= i < |ss| && ss[i] == s';
      var s := r.sections[i];
      assert s in r.sections;
      if s.id == sectionId {
        AddBulletToItems(s, s', itemId, freshId);
      }
    }
  }

  lemma AddBulletToItems(s: Section, s': Section, itemId: string, freshId: string)
    requires ItemsWellFormed(s.items)
    requires forall it, b :: it in s.items && b in it.bulletPoints ==> b.id != freshId
    requires |s'.items| == |s.items|
    requires forall j :: 0 <= j < |s.items| ==>
      var it, it' := s.items[j], s'.items[j];
      if it.id != itemId then it' == it
      else it'.(bulletPoints := it.bulletPoints) == it && it'.bulletPoints == it.bulletPoints + [NewBullet(freshId)]
    ensures ItemsWellFormed(s'.items)
  {
    forall it' | it' in s'.items
      ensures BulletIdsUnique(it'.bulletPoints)
    {
      var j :| 0 <= j < |s'.items| && s'.items[j] == it';
      var it := s.items[j];
      assert it in s.items;
      if it.id == itemId {
        forall k | 0 <= k < |it.bulletPoints|
          ensures it.bulletPoints[k].id != freshId
        {
          assert it.bulletPoints[k] in it.bulletPoints;
        }
      }
    }
  }
}
