/** The `pagination` store of stores/Base/usePagination.ts: three numbers,
    two setters and a page-count getter. */
module PaginationStore {
  import opened JsMath

  class Pagination {
    var currentPage: int
    var itemsPerPage: int
    var totalItems: int

    /** No action changes the page size, and the initial one is positive. */
    ghost predicate Valid()
      reads this`itemsPerPage
    {
      itemsPerPage > 0
    }

    /** The initial state: page 1, ten items a page, nothing counted yet. */
    constructor()
      ensures Valid()
      ensures currentPage == 1 && itemsPerPage == 10 && totalItems == 0
    {
      currentPage := 1;
      itemsPerPage := 10;
      totalItems := 0;
    }

    /** `setCurrentPage(page)`: any page is accepted, without a range check. */
    method SetCurrentPage(page: int)
      modifies this`currentPage
      ensures currentPage == page
      ensures itemsPerPage == old(itemsPerPage) && totalItems == old(totalItems)
    {
      currentPage := page;
    }

    /** `setTotalItems(total)` */
    method SetTotalItems(total: int)
      modifies this`totalItems
      ensures totalItems == total
      ensures itemsPerPage == old(itemsPerPage) && currentPage == old(currentPage)
    {
      totalItems := total;
    }

    /** The `totalPages` getter: the ceiling of totalItems / itemsPerPage. */
    function TotalPages(): (pages: int)
      reads this`totalItems, this`itemsPerPage
      requires Valid()
      ensures (pages - 1) * itemsPerPage < totalItems <= pages * itemsPerPage
    {
      CeilDiv(totalItems, itemsPerPage)
    }
  }

  /** Whatever the setters are called with, the page size stays ten and the
      page count follows the total alone. */
  method SettersKeepPageSize(p: Pagination, page: int, total: int) returns (pages: int)
    requires p.Valid() && p.itemsPerPage == 10
    modifies p
    ensures p.Valid() && p.itemsPerPage == 10
    ensures p.currentPage == page && p.totalItems == total
    ensures pages == CeilDiv(total, 10)
  {
    p.SetCurrentPage(page);
    p.SetTotalItems(total);
    pages := p.TotalPages();
  }
}
