/**
 * The backend's in-memory store: the module-level `sections` list that the request handlers
 * change in place. Each method scans the list the way its handler's `for` loop does and is
 * proved to leave the list, and to answer, exactly as the matching function of `Handlers` says.
 */
module Backend {
  import opened JsonValue
  import opened Models
  import opened Handlers

  class Store {
    var sections: seq<Section>

    constructor()
      ensures sections == []
    {
      sections := [];
    }

    method GetSections() returns (res: Response)
      ensures res == Handlers.GetSections(sections).response
    {
      res := Success(SectionsBody(sections));
    }

    method AddSection(freshId: string) returns (res: Response)
      modifies this
      ensures Reply(sections, res) == Handlers.AddSection(old(sections), freshId)
    {
      var newSection := ServerSection(freshId);
      sections := sections + [newSection];
      res := Success(SectionBody(newSection));
    }

    method AddLatexSection(freshId: string) returns (res: Response)
      modifies this
      ensures Reply(sections, res) == Handlers.AddLatexSection(old(sections), freshId)
    {
      var newLatexSection := ServerLatexSection(freshId);
      sections := sections + [newLatexSection];
      res := Success(SectionBody(newLatexSection));
    }

    method UpdateLatex(sectionId: string, data: seq<(string, Json)>) returns (res: Response)
      modifies this
      ensures Reply(sections, res) == Handlers.UpdateLatex(old(sections), sectionId, data)
    {
      var i := 0;
      while i < |sections|
        invariant 0 <= i <= |sections| && sections == old(sections)
        invariant forall k :: 0 <= k < i ==> sections[k].id != sectionId
      {
        var section := sections[i];
        if section.id != sectionId {
          i := i + 1;
          continue;
        }
        match Find(data, "text")
        case None =>
          return InternalError;
        case Some(k) =>
          section := section.(json := data[k].1);
          sections := sections[i := section];
          return Success(BareSection(section));
      }
      return HttpError(400, "Section not found");
    }

    method RemoveSection(sectionId: string) returns (res: Response)
      modifies this
      ensures Reply(sections, res) == Handlers.RemoveSection(old(sections), sectionId)
    {
      var i := 0;
      while i < |sections|
        invariant 0 <= i <= |sections| && sections == old(sections)
        invariant forall k :: 0 <= k < i ==> sections[k].id != sectionId
      {
        if sections[i].id != sectionId {
          i := i + 1;
          continue;
        }
        sections := sections[..i] + sections[i + 1..];
        return Success(Message("Section deleted successfully"));
      }
      return SectionNotFound;
    }

    method ToggleSectionStatus(sectionId: string) returns (res: Response)
      modifies this
      ensures Reply(sections, res) == Handlers.ToggleSectionStatus(old(sections), sectionId)
    {
      var i := 0;
      while i < |sections|
        invariant 0 <= i <= |sections| && sections == old(sections)
        invariant forall k :: 0 <= k < i ==> sections[k].id != sectionId
      {
        var section := sections[i];
        if section.id != sectionId {
          i := i + 1;
          continue;
        }
        section := section.(status := !section.status);
        sections := sections[i := section];
        return Success(SectionBody(section));
      }
      return SectionNotFound;
    }

    method UpdateSectionTitle(sectionId: string, data: TitleUpdate) returns (res: Response)
      modifies this
      ensures Reply(sections, res) == Handlers.UpdateSectionTitle(old(sections), sectionId, data)
    {
      var i := 0;
      while i < |sections|
        invariant 0 <= i <= |sections| && sections == old(sections)
        invariant forall k :: 0 <= k < i ==> sections[k].id != sectionId
      {
        var section := sections[i];
        if section.id != sectionId {
          i := i + 1;
          continue;
        }
        if data.title.Some? {
          section := section.(title := data.title.value);
        }
        if data.json.Some? {
          section := section.(json := data.json.value);
        }
        sections := sections[i := section];
        return Success(SectionBody(section));
      }
      return SectionNotFound;
    }

    method AddItem(sectionId: string, freshId: string) returns (res: Response)
      modifies this
      ensures Reply(sections, res) == Handlers.AddItem(old(sections), sectionId, freshId)
    {
      var i := 0;
      while i < |sections|
        invariant 0 <= i <= |sections| && sections == old(sections)
        invariant forall k :: 0 <= k < i ==> sections[k].id != sectionId
      {
        var section := sections[i];
        if section.id != sectionId {
          i := i + 1;
          continue;
        }
        var newItem := ServerItem(freshId);
        sections := sections[i := section.(items := section.items + [newItem])];
        return Success(ItemBody(newItem));
      }
      return SectionNotFound;
    }

    method ToggleItemStatus(sectionId: string, itemId: string) returns (res: Response)
      modifies this
      ensures Reply(sections, res) == Handlers.ToggleItemStatus(old(sections), sectionId, itemId)
    {
      var i := 0;
      while i < |sections|
        invariant 0 <= i <= |sections| && sections == old(sections)
        invariant forall k :: 0 <= k < i ==> sections[k].id != sectionId
      {
        if sections[i].id != sectionId {
          i := i + 1;
          continue;
        }
        var items := sections[i].items;
        var j := 0;
        while j < |items|
          invariant 0 <= j <= |items| && sections == old(sections)
          invariant forall k :: 0 <= k < j ==> items[k].id != itemId
        {
          var item := items[j];
          if item.id != itemId {
            j := j + 1;
            continue;
          }
          FirstItemIsUnique(sections, sectionId, itemId, i, j);
          item := item.(status := !item.status);
          sections := WithItem(sections, i, j, item);
          return Success(ItemBody(item));
        }
        LocateItemNoItem(sections, sectionId, itemId, i);
        return ItemNotFound;
      }
      LocateItemNoSection(sections, sectionId, itemId);
      return SectionNotFound;
    }

    method UpdateItem(sectionId: string, itemId: string, updatedFields: seq<ItemField>) returns (res: Response)
      modifies this
      ensures Reply(sections, res) == Handlers.UpdateItem(old(sections), sectionId, itemId, updatedFields)
    {
      var i := 0;
      while i < |sections|
        invariant 0 <= i <= |sections| && sections == old(sections)
        invariant forall k :: 0 <= k < i ==> sections[k].id != sectionId
      {
        if sections[i].id != sectionId {
          i := i + 1;
          continue;
        }
        var items := sections[i].items;
        var j := 0;
        while j < |items|
          invariant 0 <= j <= |items| && sections == old(sections)
          invariant forall k :: 0 <= k < j ==> items[k].id != itemId
        {
          if items[j].id != itemId {
            j := j + 1;
            continue;
          }
          FirstItemIsUnique(sections, sectionId, itemId, i, j);
          var item := AssignFields(items[j], updatedFields);
          sections := WithItem(sections, i, j, item);
          return Success(ItemBody(item));
        }
        LocateItemNoItem(sections, sectionId, itemId, i);
        return ItemNotFound;
      }
      LocateItemNoSection(sections, sectionId, itemId);
      return SectionNotFound;
    }

    method AddBulletPoint(sectionId: string, itemId: string, freshId: string) returns (res: Response)
      modifies this
      ensures Reply(sections, res) == Handlers.AddBulletPoint(old(sections), sectionId, itemId, freshId)
    {
      var i := 0;
      while i < |sections|
        invariant 0 <= i <= |sections| && sections == old(sections)
        invariant forall k :: 0 <= k < i ==> sections[k].id != sectionId
      {
        if sections[i].id != sectionId {
          i := i + 1;
          continue;
        }
        var items := sections[i].items;
        var j := 0;
        while j < |items|
          invariant 0 <= j <= |items| && sections == old(sections)
          invariant forall k :: 0 <= k < j ==> items[k].id != itemId
        {
          var item := items[j];
          if item.id != itemId {
            j := j + 1;
            continue;
          }
          FirstItemIsUnique(sections, sectionId, itemId, i, j);
          var newBullet := ServerBullet(freshId);
          sections := WithItem(sections, i, j, item.(bulletPoints := item.bulletPoints + [newBullet]));
          return Success(BulletBody(newBullet));
        }
        LocateItemNoItem(sections, sectionId, itemId, i);
        return ItemNotFound;
      }
      LocateItemNoSection(sections, sectionId, itemId);
      return SectionNotFound;
    }

    method ToggleBulletStatus(sectionId: string, itemId: string, bulletId: string) returns (res: Response)
      modifies this
      ensures Reply(sections, res) == Handlers.ToggleBulletStatus(old(sections), sectionId, itemId, bulletId)
    {
      var i := 0;
      while i < |sections|
        invariant 0 <= i <= |sections| && sections == old(sections)
        invariant forall k :: 0 <= k < i ==> sections[k].id != sectionId
      {
        if sections[i].id != sectionId {
          i := i + 1;
          continue;
        }
        var items := sections[i].items;
        var j := 0;
        while j < |items|
          invariant 0 <= j <= |items| && sections == old(sections)
          invariant forall k :: 0 <= k < j ==> items[k].id != itemId
        {
          if items[j].id != itemId {
            j := j + 1;
            continue;
          }
          var bullets := items[j].bulletPoints;
          var k := 0;
          while k < |bullets|
            invariant 0 <= k <= |bullets| && sections == old(sections)
            invariant forall m :: 0 <= m < k ==> bullets[m].id != bulletId
          {
            var bullet := bullets[k];
            if bullet.id != bulletId {
              k := k + 1;
              continue;
            }
            FirstBulletIsUnique(sections, sectionId, itemId, bulletId, i, j, k);
            bullet := bullet.(status := !bullet.status);
            sections := WithBullet(sections, i, j, k, bullet);
            return Success(BulletBody(bullet));
          }
          LocateBulletNoBullet(sections, sectionId, itemId, bulletId, i, j);
          return BulletNotFound;
        }
        LocateItemNoItem(sections, sectionId, itemId, i);
        return ItemNotFound;
      }
      LocateItemNoSection(sections, sectionId, itemId);
      return SectionNotFound;
    }

    method UpdateBulletText(sectionId: string, itemId: string, bulletId: string, data: TextUpdate) returns (res: Response)
      modifies this
      ensures Reply(sections, res) == Handlers.UpdateBulletText(old(sections), sectionId, itemId, bulletId, data)
    {
      var i := 0;
      while i < |sections|
        invariant 0 <= i <= |sections| && sections == old(sections)
        invariant forall k :: 0 <= k < i ==> sections[k].id != sectionId
      {
        if sections[i].id != sectionId {
          i := i + 1;
          continue;
        }
        var items := sections[i].items;
        var j := 0;
        while j < |items|
          invariant 0 <= j <= |items| && sections == old(sections)
          invariant forall k :: 0 <= k < j ==> items[k].id != itemId
        {
          if items[j].id != itemId {
            j := j + 1;
            continue;
          }
          var bullets := items[j].bulletPoints;
          var k := 0;
          while k < |bullets|
            invariant 0 <= k <= |bullets| && sections == old(sections)
            invariant forall m :: 0 <= m < k ==> bullets[m].id != bulletId
          {
            var bullet := bullets[k];
            if bullet.id != bulletId {
              k := k + 1;
              continue;
            }
            FirstBulletIsUnique(sections, sectionId, itemId, bulletId, i, j, k);
            if data.text.Some? {
              bullet := bullet.(text := data.text.value);
            }
            if data.json.Some? {
              bullet := bullet.(json := data.json.value);
            }
            sections := WithBullet(sections, i, j, k, bullet);
            return Success(BulletBody(bullet));
          }
          LocateBulletNoBullet(sections, sectionId, itemId, bulletId, i, j);
          return BulletNotFound;
        }
        LocateItemNoItem(sections, sectionId, itemId, i);
        return ItemNotFound;
      }
      LocateItemNoSection(sections, sectionId, itemId);
      return SectionNotFound;
    }
  }

  /** The loop over the body of `update_item`: each key the item has is assigned in turn. */
  method AssignFields(item: Item, updatedFields: seq<ItemField>) returns (out: Item)
    ensures out == ApplyFields(item, updatedFields)
  {
    out := item;
    var f := 0;
    while f < |updatedFields|
      invariant 0 <= f <= |updatedFields|
      invariant ApplyFields(out, updatedFields[f..]) == ApplyFields(item, updatedFields)
    {
      var field := updatedFields[f];
      assert updatedFields[f..][1..] == updatedFields[f + 1..];
      if !field.Unknown? {
        out := ApplyField(out, field);
      }
      f := f + 1;
    }
  }
}
