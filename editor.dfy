/**
 * The state updates of the API-backed editor component: drag reorders done with an
 * array copy and `splice`, collapse toggles, local edits, and the updates it applies
 * once the server has answered an add or a delete (the server's reply is a parameter).
 */
module Editor {
  import opened Wrappers
  import opened Models
  import opened Seqs
  import opened Tree
  import Hook

  /** `[...sections]`, then `splice(dragIndex, 1)` and `splice(hoverIndex, 0, draggedSection)`. */
  method MoveSection(sections: seq<Section>, dragIndex: nat, hoverIndex: nat) returns (r: seq<Section>)
    requires dragIndex < |sections| && hoverIndex < |sections|
    ensures r == Move(sections, dragIndex, hoverIndex)
    ensures |r| == |sections| && r[hoverIndex] == sections[dragIndex]
    ensures multiset(r) == multiset(sections)
  {
    r := SpliceMove(sections, dragIndex, hoverIndex);
    MovePermutes(sections, dragIndex, hoverIndex);
  }

  /** The same splice on the items of every section whose id matches; other sections are returned as they are. */
  method MoveItem(sections: seq<Section>, sectionId: string, dragIndex: nat, hoverIndex: nat) returns (r: seq<Section>)
    requires Hook.ItemIndicesValid(Resume(sections), sectionId, dragIndex, hoverIndex)
    ensures r == Hook.MoveItem(Resume(sections), sectionId, dragIndex, hoverIndex).sections
  {
    ghost var spec := Hook.MoveItem(Resume(sections), sectionId, dragIndex, hoverIndex).sections;
    r := [];
    for i := 0 to |sections|
      invariant |r| == i
      invariant forall k :: 0 <= k < i ==> r[k] == spec[k]
    {
      var section := sections[i];
      if section.id == sectionId {
        assert section in sections;
        var newItems := SpliceMove(section.items, dragIndex, hoverIndex);
        r := r + [section.(items := newItems)];
      } else {
        r := r + [section];
      }
    }
  }

  /** The splice on the bullets of the matched item of the matched section. */
  method MoveBulletsIn(items: seq<Item>, itemId: string, dragIndex: nat, hoverIndex: nat) returns (r: seq<Item>)
    requires forall it :: it in items && it.id == itemId ==> dragIndex < |it.bulletPoints| && hoverIndex < |it.bulletPoints|
    ensures r == MapItems(items, itemId, (it: Item) => Hook.MoveBulletsOf(it, dragIndex, hoverIndex))
  {
    r := [];
    for j := 0 to |items|
      invariant |r| == j
      invariant forall k :: 0 <= k < j ==> r[k] == if items[k].id == itemId then Hook.MoveBulletsOf(items[k], dragIndex, hoverIndex) else items[k]
    {
      var item := items[j];
      if item.id == itemId {
        assert item in items;
        var newBulletPoints := SpliceMove(item.bulletPoints, dragIndex, hoverIndex);
        r := r + [item.(bulletPoints := newBulletPoints)];
      } else {
        r := r + [item];
      }
    }
  }

  method MoveBulletPoint(sections: seq<Section>, sectionId: string, itemId: string, dragIndex: nat, hoverIndex: nat)
    returns (r: seq<Section>)
    requires Hook.BulletIndicesValid(Resume(sections), sectionId, itemId, dragIndex, hoverIndex)
    ensures r == Hook.MoveBulletPoint(Resume(sections), sectionId, itemId, dragIndex, hoverIndex).sections
  {
    ghost var spec := Hook.MoveBulletPoint(Resume(sections), sectionId, itemId, dragIndex, hoverIndex).sections;
    r := [];
    for i := 0 to |sections|
      invariant |r| == i
      invariant forall k :: 0 <= k < i ==> r[k] == spec[k]
    {
      var section := sections[i];
      if section.id == sectionId {
        assert section in sections;
        var newItems := MoveBulletsIn(section.items, itemId, dragIndex, hoverIndex);
        r := r + [section.(items := newItems)];
      } else {
        r := r + [section];
      }
    }
  }

  function ToggleSectionCollapse(sections: seq<Section>, sectionId: string): (r: seq<Section>)
    ensures |r| == |sections|
    ensures forall i :: 0 <= i < |sections| ==>
      r[i].(isCollapsed := sections[i].isCollapsed) == sections[i]
      && r[i].isCollapsed == (sections[i].isCollapsed != (sections[i].id == sectionId))
  {
    MapSections(sections, sectionId, (s: Section) => s.(isCollapsed := !s.isCollapsed))
  }

  function ToggleItemCollapse(sections: seq<Section>, sectionId: string, itemId: string): (r: seq<Section>)
    ensures |r| == |sections|
    ensures forall i :: 0 <= i < |sections| ==>
      var s, s' := sections[i], r[i];
      s'.(items := s.items) == s && |s'.items| == |s.items|
      && forall j :: 0 <= j < |s.items| ==>
        var it, it' := s.items[j], s'.items[j];
        it'.(isCollapsed := it.isCollapsed) == it
        && it'.isCollapsed == (it.isCollapsed != (s.id == sectionId && it.id == itemId))
  {
    MapSections(sections, sectionId,
      (s: Section) => s.(items := MapItems(s.items, itemId, (it: Item) => it.(isCollapsed := !it.isCollapsed))))
  }

  /** `{ ...item, ...updatedItem }`: the same update the local hook applies. */
  function UpdateItem(sections: seq<Section>, sectionId: string, itemId: string, updatedItem: seq<ItemField>): (r: seq<Section>)
    ensures |r| == |sections|
    ensures forall i :: 0 <= i < |sections| ==>
      var s, s' := sections[i], r[i];
      s'.(items := s.items) == s && |s'.items| == |s.items|
      && forall j :: 0 <= j < |s.items| ==>
        s'.items[j] == if s.id == sectionId && s.items[j].id == itemId
                       then ApplyFields(s.items[j], updatedItem) else s.items[j]
  {
    Hook.UpdateItem(Resume(sections), sectionId, itemId, updatedItem).sections
  }

  /** Only the text is replaced here; the bullet's `json` is left as it was. */
  function UpdateBulletText(sections: seq<Section>, sectionId: string, itemId: string, bulletId: string, newText: string)
    : (r: seq<Section>)
    ensures |r| == |sections|
    ensures forall i :: 0 <= i < |sections| ==>
      var s, s' := sections[i], r[i];
      s'.(items := s.items) == s && |s'.items| == |s.items|
      && forall j :: 0 <= j < |s.items| ==>
        var it, it' := s.items[j], s'.items[j];
        it'.(bulletPoints := it.bulletPoints) == it && |it'.bulletPoints| == |it.bulletPoints|
        && forall k :: 0 <= k < |it.bulletPoints| ==>
          var b, b' := it.bulletPoints[k], it'.bulletPoints[k];
          b'.(text := b.text) == b
          && b'.text == (if s.id == sectionId && it.id == itemId && b.id == bulletId then newText else b.text)
  {
    MapSections(sections, sectionId,
      (s: Section) => s.(items := MapItems(s.items, itemId,
        (it: Item) => it.(bulletPoints := MapBullets(it.bulletPoints, bulletId, (b: BulletPoint) => b.(text := newText))))))
  }

  /** After the server confirmed the delete: `sections.filter((sec) => sec.id !== id)`. */
  function RemoveSection(sections: seq<Section>, id: string): (r: seq<Section>)
    ensures forall s :: s in r <==> s in sections && s.id != id
    ensures forall s :: multiset(r)[s] == if s.id != id then multiset(sections)[s] else 0
    ensures IsSubsequence(r, sections)
  {
    Hook.RemoveSectionKeepsOrder(Resume(sections), id);
    Hook.RemoveSection(Resume(sections), id).sections
  }

  /** Appends the item the server returned to every section with the id. */
  function AddItem(sections: seq<Section>, sectionId: string, item: Item): (r: seq<Section>)
    ensures |r| == |sections|
    ensures forall i :: 0 <= i < |sections| ==>
      var s, s' := sections[i], r[i];
      s'.(items := s.items) == s
      && s'.items == if s.id == sectionId then s.items + [item] else s.items
  {
    MapSections(sections, sectionId, (s: Section) => s.(items := s.items + [item]))
  }

  /** Appends the bullet the server returned to the matched item of the matched section. */
  function AddBulletPoint(sections: seq<Section>, sectionId: string, itemId: string, bullet: BulletPoint): (r: seq<Section>)
    ensures |r| == |sections|
    ensures forall i :: 0 <= i < |sections| ==>
      var s, s' := sections[i], r[i];
      s'.(items := s.items) == s && |s'.items| == |s.items|
      && forall j :: 0 <= j < |s.items| ==>
        var it, it' := s.items[j], s'.items[j];
        it'.(bulletPoints := it.bulletPoints) == it
        && it'.bulletPoints == if s.id == sectionId && it.id == itemId then it.bulletPoints + [bullet] else it.bulletPoints
  {
    MapSections(sections, sectionId,
      (s: Section) => s.(items := MapItems(s.items, itemId, (it: Item) => it.(bulletPoints := it.bulletPoints + [bullet]))))
  }

  // ---------------------------------------------------------------------------------------
  // Properties.

  /** Collapsing a section twice restores the list. */
  lemma ToggleSectionCollapseTwice(sections: seq<Section>, sectionId: string)
    ensures ToggleSectionCollapse(ToggleSectionCollapse(sections, sectionId), sectionId) == sections
  {
    var r := ToggleSectionCollapse(ToggleSectionCollapse(sections, sectionId), sectionId);
    assert forall i :: 0 <= i < |sections| ==> r[i] == sections[i];
  }

  /** Collapsing an item twice restores the list. */
  lemma ToggleItemCollapseTwice(sections: seq<Section>, sectionId: string, itemId: string)
    ensures ToggleItemCollapse(ToggleItemCollapse(sections, sectionId, itemId), sectionId, itemId) == sections
  {
    var r := ToggleItemCollapse(ToggleItemCollapse(sections, sectionId, itemId), sectionId, itemId);
    forall i | 0 <= i < |sections|
      ensures r[i] == sections[i]
    {
      assert r[i].items == sections[i].items;
    }
  }

  /** A field that the partial update does not mention keeps its value in the updated item. */
  lemma UpdateItemKeepsUnmentioned(sections: seq<Section>, sectionId: string, itemId: string,
                                   updatedItem: seq<ItemField>, i: nat, j: nat, n: FieldName)
    requires i < |sections| && j < |sections[i].items|
    requires forall k :: 0 <= k < |updatedItem| ==> NameOf(updatedItem[k]) != Some(n)
    ensures FieldOf(UpdateItem(sections, sectionId, itemId, updatedItem)[i].items[j], n) == FieldOf(sections[i].items[j], n)
  {
    ApplyFieldsFrame(sections[i].items[j], updatedItem, n);
  }

  /** A field that the partial update mentions takes the value of its last mention in the matched item. */
  lemma UpdateItemOverridesMentioned(sections: seq<Section>, sectionId: string, itemId: string,
                                     updatedItem: seq<ItemField>, i: nat, j: nat, k: nat, n: FieldName)
    requires i < |sections| && j < |sections[i].items|
    requires sections[i].id == sectionId && sections[i].items[j].id == itemId
    requires k < |updatedItem| && NameOf(updatedItem[k]) == Some(n)
    requires forall m :: k < m < |updatedItem| ==> NameOf(updatedItem[m]) != Some(n)
    ensures FieldOf(UpdateItem(sections, sectionId, itemId, updatedItem)[i].items[j], n) == ValueOf(updatedItem[k])
  {
    ApplyFieldsLastWins(sections[i].items[j], updatedItem, k, n);
  }

  /** Deleting by id the item that was just added with an unused id restores the list. */
  lemma AddItemThenRemove(sections: seq<Section>, sectionId: string, item: Item)
    requires forall s, it :: s in sections && it in s.items ==> it.id != item.id
    ensures Hook.RemoveItem(Resume(AddItem(sections, sectionId, item)), sectionId, item.id).sections == sections
  {
    var added := AddItem(sections, sectionId, item);
    var r := Hook.RemoveItem(Resume(added), sectionId, item.id).sections;
    forall i | 0 <= i < |sections|
      ensures r[i] == sections[i]
    {
      var s := sections[i];
      if s.id == sectionId {
        assert s in sections;
        FilterAppend(Hook.ItemIdIsNot(item.id), s.items, [item]);
        FilterAll(Hook.ItemIdIsNot(item.id), s.items);
        assert r[i].items == Filter(Hook.ItemIdIsNot(item.id), s.items + [item]);
      }
    }
  }

  /** Deleting by id the bullet that was just added with an unused id restores the list. */
  lemma AddBulletPointThenRemove(sections: seq<Section>, sectionId: string, itemId: string, bullet: BulletPoint)
    requires forall s, it, b :: s in sections && it in s.items && b in it.bulletPoints ==> b.id != bullet.id
    ensures Hook.RemoveBulletPoint(Resume(AddBulletPoint(sections, sectionId, itemId, bullet)),
                                   sectionId, itemId, bullet.id).sections == sections
  {
    var added := AddBulletPoint(sections, sectionId, itemId, bullet);
    var r := Hook.RemoveBulletPoint(Resume(added), sectionId, itemId, bullet.id).sections;
    forall i | 0 <= i < |sections|
      ensures r[i] == sections[i]
    {
      var s := sections[i];
      assert s in sections;
      forall j | 0 <= j < |s.items|
        ensures r[i].items[j] == s.items[j]
      {
        var it := s.items[j];
        assert it in s.items;
        if s.id == sectionId && it.id == itemId {
          RemoveAddedBullet(it.bulletPoints, bullet);
          assert r[i].items[j].bulletPoints == Filter(Hook.BulletIdIsNot(bullet.id), it.bulletPoints + [bullet]);
        }
      }
      assert r[i].items == s.items;
    }
  }

  /** Filtering out the id of a bullet appended to a list that does not use that id gives back the list. */
  lemma RemoveAddedBullet(bs: seq<BulletPoint>, bullet: BulletPoint)
    requires forall b :: b in bs ==> b.id != bullet.id
    ensures Filter(Hook.BulletIdIsNot(bullet.id), bs + [bullet]) == bs
  {
    FilterAppend(Hook.BulletIdIsNot(bullet.id), bs, [bullet]);
    FilterAll(Hook.BulletIdIsNot(bullet.id), bs);
    assert Filter(Hook.BulletIdIsNot(bullet.id), [bullet]) == [];
  }
}
