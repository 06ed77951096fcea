/**
 The offset-based pager under the public score table. `page` is the index of
 the first row shown (not a page number); the table shows
 `data.slice(page, page + 10)`, and the Previous / Next buttons move the
 offset by ten. The buttons are only rendered when there are more than ten rows.
 */
module Pagination {

  const ItemsPerPage: nat := 10

  /** `data.slice(page, page + itemsPerPage)`: JavaScript clamps both ends
      to the length. */
  function Window<T>(data: seq<T>, page: nat): (r: seq<T>)
    ensures |r| <= ItemsPerPage
    ensures page < |data| ==> |r| == if |data| - page < ItemsPerPage then |data| - page else ItemsPerPage
    ensures page >= |data| ==> r == []
    ensures forall i :: 0 <= i < |r| ==> page + i < |data| && r[i] == data[page + i]
  {
    var lo := if page < |data| then page else |data|;
    var hi := if page + ItemsPerPage < |data| then page + ItemsPerPage else |data|;
    data[lo..hi]
  }

  /** `data.length > itemsPerPage`: whether the pager is rendered at all. */
  predicate PagerShown(count: nat)
  {
    count > ItemsPerPage
  }

  /** Previous is enabled unless `page === 0`. */
  predicate CanGoBack(count: nat, page: nat)
  {
    PagerShown(count) && page != 0
  }

  /** Next is disabled when `page + itemsPerPage >= data.length`. */
  predicate CanGoForward(count: nat, page: nat)
  {
    PagerShown(count) && page + ItemsPerPage < count
  }

  /** `Math.max(0, p - itemsPerPage)`. */
  function Previous(page: nat): (r: nat)
    ensures page >= ItemsPerPage ==> r + ItemsPerPage == page
    ensures page < ItemsPerPage ==> r == 0
  {
    if page >= ItemsPerPage then page - ItemsPerPage else 0
  }

  /** `p + itemsPerPage`. */
  function Next(page: nat): nat
  {
    page + ItemsPerPage
  }

  /** The label between the buttons: `Math.floor(page / itemsPerPage) + 1`. */
  function PageLabel(page: nat): (r: nat)
    ensures r >= 1
    ensures (r - 1) * ItemsPerPage <= page < r * ItemsPerPage
  {
    page / ItemsPerPage + 1
  }

  datatype Click = PreviousClick | NextClick

  /** A click on an enabled button moves the offset; a disabled or hidden
      button does nothing. */
  function OnClick(count: nat, page: nat, c: Click): (r: nat)
    ensures c.PreviousClick? && CanGoBack(count, page) ==> r == Previous(page) && r < page
    ensures c.NextClick? && CanGoForward(count, page) ==> r == page + ItemsPerPage && r < count
    ensures !(c.PreviousClick? && CanGoBack(count, page)) && !(c.NextClick? && CanGoForward(count, page)) ==> r == page
  {
    match c
    case PreviousClick => if CanGoBack(count, page) then Previous(page) else page
    case NextClick => if CanGoForward(count, page) then Next(page) else page
  }

  // ---------------------------------------------------------------------------
  // Properties

  /** Starting at 0, the offset is always a multiple of ten, and a click moves
      the label by exactly one page. */
  lemma ClickKeepsAlignment(count: nat, page: nat, c: Click)
    requires page % ItemsPerPage == 0
    ensures OnClick(count, page, c) % ItemsPerPage == 0
    ensures c.NextClick? && CanGoForward(count, page) ==> PageLabel(OnClick(count, page, c)) == PageLabel(page) + 1
    ensures c.PreviousClick? && CanGoBack(count, page) ==> PageLabel(OnClick(count, page, c)) + 1 == PageLabel(page)
  {
  }

  /** Next is only offered when the page after it has rows. */
  lemma NextPageNonEmpty<T>(data: seq<T>, page: nat)
    requires CanGoForward(|data|, page)
    ensures Window(data, Next(page)) != []
    ensures |Window(data, page)| == ItemsPerPage
  {
    assert Window(data, Next(page))[0] == data[Next(page)];
  }

  /** Previous from an aligned offset shows the ten rows just before. */
  lemma PreviousShowsPrecedingRows<T>(data: seq<T>, page: nat)
    requires page % ItemsPerPage == 0 && CanGoBack(|data|, page) && page <= |data|
    ensures Window(data, Previous(page)) == data[page - ItemsPerPage..page]
  {
  }

  /** Walking the pages from offset `from` with Next shows every row from
      there on exactly once, in order. */
  function PagesFrom<T>(data: seq<T>, from: nat): seq<T>
    decreases |data| - from
  {
    if from >= |data| then [] else Window(data, from) + PagesFrom(data, from + ItemsPerPage)
  }

  lemma {:induction false} PagesCoverRest<T>(data: seq<T>, from: nat)
    requires from <= |data|
    ensures PagesFrom(data, from) == data[from..]
    decreases |data| - from
  {
    if from < |data| {
      if from + ItemsPerPage <= |data| {
        PagesCoverRest(data, from + ItemsPerPage);
        assert data[from..] == data[from..from + ItemsPerPage] + data[from + ItemsPerPage..];
      } else {
        assert PagesFrom(data, from + ItemsPerPage) == [];
      }
    }
  }

  /** The pages, read in order from the first, are the whole table. */
  lemma PagesCoverData<T>(data: seq<T>)
    ensures PagesFrom(data, 0) == data
  {
    PagesCoverRest(data, 0);
  }

  /** The offset is not reset when the list shrinks under it. Once the list
      has no more than ten rows and the offset is at or past its end, the
      table is empty and the pager is not rendered, so no button leads back
      to the rows. */
  lemma StrandedOffset<T>(data: seq<T>, page: nat)
    requires !PagerShown(|data|) && page >= |data|
    ensures Window(data, page) == []
    ensures forall c :: OnClick(|data|, page, c) == page
  {
  }

  /** The case of five rows left at offset 10, the second page's offset. */
  lemma StrandedExample<T>(data: seq<T>)
    requires |data| == 5
    ensures Window(data, 10) == [] && !PagerShown(|data|)
    ensures forall c :: OnClick(|data|, 10, c) == 10
  {
    StrandedOffset(data, 10);
  }

  /** The label is the one page number whose block of ten rows holds the
      offset, and an aligned offset is exactly the first row of that block. */
  lemma LabelNamesBlock(page: nat)
    ensures page % ItemsPerPage == 0 ==> page == (PageLabel(page) - 1) * ItemsPerPage
    ensures forall k: nat :: (k - 1) * ItemsPerPage <= page < k * ItemsPerPage ==> k == PageLabel(page)
  {
  }
}
