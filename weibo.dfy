/** The remote feed as the scrapper sees it. */
module Weibo {

  /** One entry of the page's `data.list`: the three fields the core reads. */
  datatype Item = Item(id: int, textRaw: string, createdAt: string)

  /**
   * What one get_weibo_content_once call returns: None when the browser
   * step raised, otherwise the `data.list` it decoded (possibly empty).
   */
  datatype Outcome = Unavailable | Fetched(items: seq<Item>)

  /** Python's truthiness of that value: None and the empty list are both false. */
  predicate Truthy(o: Outcome) {
    o.Fetched? && o.items != []
  }

  /** The ids carried by a list of items. */
  function Ids(items: seq<Item>): (r: set<int>)
    ensures forall i :: 0 <= i < |items| ==> items[i].id in r
  {
    if items == [] then {} else {items[0].id} + Ids(items[1..])
  }

  lemma {:induction false} IdsAppend(a: seq<Item>, x: Item)
    ensures Ids(a + [x]) == Ids(a) + {x.id}
  {
    if a != [] {
      assert (a + [x])[1..] == a[1..] + [x];
      IdsAppend(a[1..], x);
    } else {
      assert a + [x] == [x];
    }
  }
}
