/** Selecting nodes of the content tree by id, the way every editor transition does (`map` with an id test). */
module Tree {
  import opened Models

  /** `ss.map(s => s.id === id ? f(s) : s)`. */
  function MapSections(ss: seq<Section>, id: string, f: Section -> Section): (r: seq<Section>)
    ensures |r| == |ss|
    ensures forall i :: 0 <= i < |ss| ==> r[i] == if ss[i].id == id then f(ss[i]) else ss[i]
  {
    seq(|ss|, i requires 0 <= i < |ss| => if ss[i].id == id then f(ss[i]) else ss[i])
  }

  /** `items.map(it => it.id === id ? f(it) : it)`. */
  function MapItems(items: seq<Item>, id: string, f: Item -> Item): (r: seq<Item>)
    ensures |r| == |items|
    ensures forall i :: 0 <= i < |items| ==> r[i] == if items[i].id == id then f(items[i]) else items[i]
  {
    seq(|items|, i requires 0 <= i < |items| => if items[i].id == id then f(items[i]) else items[i])
  }

  /** `bullets.map(b => b.id === id ? f(b) : b)`. */
  function MapBullets(bs: seq<BulletPoint>, id: string, f: BulletPoint -> BulletPoint): (r: seq<BulletPoint>)
    ensures |r| == |bs|
    ensures forall i :: 0 <= i < |bs| ==> r[i] == if bs[i].id == id then f(bs[i]) else bs[i]
  {
    seq(|bs|, i requires 0 <= i < |bs| => if bs[i].id == id then f(bs[i]) else bs[i])
  }

  /** Identifiers are unique within their containing list, at every level. */
  ghost predicate WellFormed(ss: seq<Section>)
  {
    && (forall i, j :: 0 <= i < j < |ss| ==> ss[i].id != ss[j].id)
    && (forall s :: s in ss ==> ItemsWellFormed(s.items))
  }

  ghost predicate ItemsWellFormed(items: seq<Item>)
  {
    && (forall i, j :: 0 <= i < j < |items| ==> items[i].id != items[j].id)
    && (forall it :: it in items ==> BulletIdsUnique(it.bulletPoints))
  }

  ghost predicate BulletIdsUnique(bs: seq<BulletPoint>)
  {
    forall i, j :: 0 <= i < j < |bs| ==> bs[i].id != bs[j].id
  }

  /** Whether some section carries this id. */
  ghost predicate SectionIdUsed(ss: seq<Section>, id: string)
  {
    exists s :: s in ss && s.id == id
  }

  /** Whether some item of some section carries this id. */
  ghost predicate ItemIdUsed(ss: seq<Section>, id: string)
  {
    exists s, it :: s in ss && it in s.items && it.id == id
  }

  /** Whether some bullet anywhere in the tree carries this id. */
  ghost predicate BulletIdUsed(ss: seq<Section>, id: string)
  {
    exists s, it, b :: s in ss && it in s.items && b in it.bulletPoints && b.id == id
  }
}
