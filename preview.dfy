/** The preview's projection of the content tree onto what is shown: nodes whose `status` is false are dropped. */
module Preview {
  import opened Models
  import opened Seqs

  function SectionIsActive(): Section -> bool { (s: Section) => s.status }
  function ItemIsActive(): Item -> bool { (it: Item) => it.status }
  function BulletIsActive(): BulletPoint -> bool { (b: BulletPoint) => b.status }

  /** Every section, item and bullet of the tree has status true. */
  ghost predicate AllActive(sections: seq<Section>)
  {
    forall s :: s in sections ==> s.status && ItemsActive(s.items)
  }

  ghost predicate ItemsActive(items: seq<Item>)
  {
    forall it :: it in items ==> it.status && BulletsActive(it.bulletPoints)
  }

  ghost predicate BulletsActive(bs: seq<BulletPoint>)
  {
    forall b :: b in bs ==> b.status
  }

  /** `item.bulletPoints.filter((bullet) => bullet.status)`. */
  function ActiveBullets(bs: seq<BulletPoint>): (r: seq<BulletPoint>)
    ensures forall b :: b in r <==> b in bs && b.status
  {
    Filter(BulletIsActive(), bs)
  }

  /** `{ ...item, bulletPoints: … }`: an item with only its visible bullets. */
  function ActiveItem(it: Item): Item
  {
    it.(bulletPoints := ActiveBullets(it.bulletPoints))
  }

  /** `section.items.filter((item) => item.status).map(…)`. */
  function ActiveItems(items: seq<Item>): (r: seq<Item>)
    ensures ItemsActive(r)
    ensures forall it' :: it' in r ==>
      exists it :: it in items && it.status && it' == ActiveItem(it)
    ensures forall it :: it in items && it.status ==> ActiveItem(it) in r
  {
    var kept := Filter(ItemIsActive(), items);
    var r := Map(ActiveItem, kept);
    assert forall k :: 0 <= k < |kept| ==> kept[k] in kept;
    assert forall it :: it in kept ==> ActiveItem(it) == r[IndexOf(kept, it)];
    r
  }

  /** A section with only its visible items, each with only its visible bullets. */
  function ActiveSection(s: Section): Section
  {
    s.(items := ActiveItems(s.items))
  }

  /** `activeContent`: the visible sections, in order, each pruned by `ActiveSection`. */
  function ActiveContent(sections: seq<Section>): (r: seq<Section>)
    ensures AllActive(r)
    ensures forall s' :: s' in r ==>
      exists s :: s in sections && s.status && s' == ActiveSection(s)
    ensures forall s :: s in sections && s.status ==> ActiveSection(s) in r
  {
    var kept := Filter(SectionIsActive(), sections);
    var r := Map(ActiveSection, kept);
    assert forall k :: 0 <= k < |kept| ==> kept[k] in kept;
    assert forall s :: s in kept ==> ActiveSection(s) == r[IndexOf(kept, s)];
    r
  }

  function IndexOf<T(==)>(s: seq<T>, x: T): (i: nat)
    requires x in s
    ensures i < |s| && s[i] == x
  {
    if s[0] == x then 0 else 1 + IndexOf(s[1..], x)
  }

  // ---------------------------------------------------------------------------------------
  // Properties.

  /** Kept sections appear in their original relative order. */
  lemma ActiveContentKeepsOrder(sections: seq<Section>)
    ensures IsSubsequence(ActiveContent(sections), Map(ActiveSection, sections))
  {
    FilterIsSubsequence(SectionIsActive(), sections);
    MapSubsequence(ActiveSection, Filter(SectionIsActive(), sections), sections);
  }

  /** Kept items appear in their original relative order. */
  lemma ActiveItemsKeepOrder(items: seq<Item>)
    ensures IsSubsequence(ActiveItems(items), Map(ActiveItem, items))
  {
    FilterIsSubsequence(ItemIsActive(), items);
    MapSubsequence(ActiveItem, Filter(ItemIsActive(), items), items);
  }

  /** Kept bullets appear in their original relative order. */
  lemma ActiveBulletsKeepOrder(bs: seq<BulletPoint>)
    ensures IsSubsequence(ActiveBullets(bs), bs)
  {
    FilterIsSubsequence(BulletIsActive(), bs);
  }

  lemma ActiveItemsOfActive(items: seq<Item>)
    requires ItemsActive(items)
    ensures ActiveItems(items) == items
  {
    FilterAll(ItemIsActive(), items);
    forall k | 0 <= k < |items|
      ensures ActiveItem(items[k]) == items[k]
    {
      assert items[k] in items;
      FilterAll(BulletIsActive(), items[k].bulletPoints);
    }
  }

  /** A tree in which everything is visible is its own projection. */
  lemma ActiveContentOfActive(sections: seq<Section>)
    requires AllActive(sections)
    ensures ActiveContent(sections) == sections
  {
    FilterAll(SectionIsActive(), sections);
    forall k | 0 <= k < |sections|
      ensures ActiveSection(sections[k]) == sections[k]
    {
      assert sections[k] in sections;
      ActiveItemsOfActive(sections[k].items);
    }
  }

  /** Projecting the projection changes nothing. */
  lemma ActiveContentIdempotent(sections: seq<Section>)
    ensures ActiveContent(ActiveContent(sections)) == ActiveContent(sections)
  {
    ActiveContentOfActive(ActiveContent(sections));
  }
}
