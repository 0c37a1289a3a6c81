/** `getPaginationInfo` of composables/Quiz/useQuiz.ts: the page record the
    quiz list shows, computed from a total, a page size and an offset. */
module QuizPagination {
  import opened Common
  import opened JsMath

  datatype PaginationInfo = PaginationInfo(
    totalPages: int,
    currentPage: int,
    nextPage: Option<int>,
    prevPage: Option<int>,
    hasNext: bool,
    hasPrev: bool)

  /** The number of pages is the ceiling of total / limit, the current page is
      one past the floor of offset / limit; the neighbour pages are present
      exactly when the matching flag is set. */
  function GetPaginationInfo(total: int, limit: int, offset: int): (info: PaginationInfo)
    requires limit > 0
    ensures (info.totalPages - 1) * limit < total <= info.totalPages * limit
    ensures (info.currentPage - 1) * limit <= offset < info.currentPage * limit
    ensures info.hasNext <==> info.currentPage < info.totalPages
    ensures info.nextPage == if info.hasNext then Some(info.currentPage + 1) else None
    ensures info.hasPrev <==> info.currentPage > 1
    ensures info.prevPage == if info.hasPrev then Some(info.currentPage - 1) else None
  {
    var totalPages := CeilDiv(total, limit);
    var currentPage := FloorDiv(offset, limit) + 1;
    PaginationInfo(
      totalPages,
      currentPage,
      if currentPage < totalPages then Some(currentPage + 1) else None,
      if currentPage > 1 then Some(currentPage - 1) else None,
      currentPage < totalPages,
      currentPage > 1)
  }

  /** A non-negative offset is on page 1 or later. */
  lemma CurrentPageIsPositive(total: int, limit: int, offset: int)
    requires limit > 0 && offset >= 0
    ensures GetPaginationInfo(total, limit, offset).currentPage >= 1
  {
    var p := GetPaginationInfo(total, limit, offset).currentPage;
    if p < 1 {
      MulMonotone(p, 0, limit);
    }
  }

  /** The neighbour pages named by the record are real pages. */
  lemma NeighboursInRange(total: int, limit: int, offset: int)
    requires limit > 0 && offset >= 0
    ensures var info := GetPaginationInfo(total, limit, offset);
            && (info.prevPage.Some? ==> 1 <= info.prevPage.value < info.currentPage)
            && (info.nextPage.Some? ==> info.currentPage < info.nextPage.value <= info.totalPages)
  {
    CurrentPageIsPositive(total, limit, offset);
  }

  /** Nothing to show: no pages and no next page. */
  lemma EmptyTotal(limit: int, offset: int)
    requires limit > 0 && offset >= 0
    ensures GetPaginationInfo(0, limit, offset).totalPages == 0
    ensures !GetPaginationInfo(0, limit, offset).hasNext
    ensures GetPaginationInfo(0, limit, offset).nextPage == None
  {
    CeilDivUnique(0, limit, 0);
    CurrentPageIsPositive(0, limit, offset);
  }

  /** A next page exists exactly when the items of the pages up to the current
      one do not cover the total. */
  lemma HasNextIffItemsRemain(total: int, limit: int, offset: int)
    requires limit > 0
    ensures var info := GetPaginationInfo(total, limit, offset);
            info.hasNext <==> info.currentPage * limit < total
  {
    var info := GetPaginationInfo(total, limit, offset);
    if info.currentPage < info.totalPages {
      MulMonotone(info.currentPage, info.totalPages - 1, limit);
    } else {
      MulMonotone(info.totalPages, info.currentPage, limit);
    }
  }
}
