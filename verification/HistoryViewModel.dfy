/**
 * The history screen's view model: the logs of one medication shown ten per page, with
 * a page counter moved by "next" and "previous".
 */
module HistoryViewModel {

  import opened Entities

  const PAGE_SIZE: nat := 10

  /**
   * `totalPages`: 1 for no logs, otherwise the number of pages of ten needed to hold
   * them (`ceil(size / 10.0)`, exact for any list size an `Int` can hold).
   */
  function TotalPages(count: nat): (pages: nat)
    ensures pages >= 1
    ensures count == 0 ==> pages == 1
    ensures count > 0 ==> (pages - 1) * PAGE_SIZE < count <= pages * PAGE_SIZE
  {
    if count == 0 then 1 else (count + PAGE_SIZE - 1) / PAGE_SIZE
  }

  /** `logs`: the entries `page * 10 .. min(page * 10 + 10, size)`, or nothing past the end. */
  function PageSlice(logs: seq<MedicationLog>, page: nat): (slice: seq<MedicationLog>)
    ensures |slice| <= PAGE_SIZE
    ensures slice == [] <==> page * PAGE_SIZE >= |logs|
    ensures page * PAGE_SIZE < |logs| ==> |slice| == if |logs| - page * PAGE_SIZE < PAGE_SIZE then |logs| - page * PAGE_SIZE else PAGE_SIZE
    ensures forall i :: 0 <= i < |slice| ==> slice[i] == logs[page * PAGE_SIZE + i]
  {
    var start := page * PAGE_SIZE;
    var end := if start + PAGE_SIZE < |logs| then start + PAGE_SIZE else |logs|;
    if start < |logs| then logs[start..end] else []
  }

  /** The first `pages` pages one after another. */
  function Pages(logs: seq<MedicationLog>, pages: nat): seq<MedicationLog>
  {
    if pages == 0 then [] else Pages(logs, pages - 1) + PageSlice(logs, pages - 1)
  }

  /** The first `pages` pages, read in order, are a prefix of the logs. */
  lemma {:induction false} PagesArePrefix(logs: seq<MedicationLog>, pages: nat)
    ensures Pages(logs, pages) == logs[..if pages * PAGE_SIZE < |logs| then pages * PAGE_SIZE else |logs|]
  {
    if pages > 0 {
      PagesArePrefix(logs, pages - 1);
      var k := pages - 1;
      var lo := if k * PAGE_SIZE < |logs| then k * PAGE_SIZE else |logs|;
      var hi := if pages * PAGE_SIZE < |logs| then pages * PAGE_SIZE else |logs|;
      assert PageSlice(logs, k) == logs[lo..hi];
      assert logs[..lo] + logs[lo..hi] == logs[..hi];
    }
  }

  /** Reading pages 0 .. totalPages - 1 in order gives back every log, in order. */
  lemma AllPagesAreAllLogs(logs: seq<MedicationLog>)
    ensures Pages(logs, TotalPages(|logs|)) == logs
  {
    PagesArePrefix(logs, TotalPages(|logs|));
  }

  /** A page within 0 .. totalPages - 1 is empty only when there are no logs at all. */
  lemma PageInRangeIsFull(logs: seq<MedicationLog>, page: nat)
    requires page < TotalPages(|logs|)
    ensures PageSlice(logs, page) == [] <==> logs == []
  {
  }

  /** The view model's state: the medication shown, the page counter and the loaded logs. */
  class HistoryViewModel {
    var medicationId: int
    var currentPage: int
    /** The repository's answer for `medicationId` (empty for an id of 0 or below). */
    var allLogs: seq<MedicationLog>

    constructor ()
      ensures medicationId == 0 && currentPage == 0 && allLogs == []
    {
      medicationId := 0;
      currentPage := 0;
      allLogs := [];
    }

    /** `totalCount`: the number of loaded logs. */
    function TotalCount(): (n: nat)
      reads this
      ensures n == |Pages(allLogs, PageCount())|
    {
      AllPagesAreAllLogs(allLogs);
      |allLogs|
    }

    function PageCount(): nat
      reads this
    {
      TotalPages(|allLogs|)
    }

    /** The page counter names one of the pages. */
    predicate InRange()
      reads this
    {
      0 <= currentPage < PageCount()
    }

    /** The logs on the current page. */
    function Logs(): (page: seq<MedicationLog>)
      reads this
      requires currentPage >= 0
      ensures |page| <= PAGE_SIZE
      ensures forall i :: 0 <= i < |page| ==> currentPage * PAGE_SIZE + i < |allLogs| && page[i] == allLogs[currentPage * PAGE_SIZE + i]
      ensures InRange() ==> (page == [] <==> allLogs == [])
    {
      PageSlice(allLogs, currentPage)
    }

    /**
     * `load`: show medication `id` from its first page. The loaded logs stay those of the
     * previous medication until the logs flow emits for the new one (`LogsChanged`).
     */
    method Load(id: int)
      modifies this
      ensures medicationId == id && currentPage == 0
      ensures allLogs == old(allLogs)
      ensures InRange()
    {
      medicationId := id;
      currentPage := 0;
    }

    /** The logs flow emitting for the current medication (after a load, or a log added or deleted); the page counter is left as it is. */
    method LogsChanged(repositoryLogs: seq<MedicationLog>)
      modifies this
      ensures allLogs == (if medicationId > 0 then repositoryLogs else [])
      ensures medicationId == old(medicationId) && currentPage == old(currentPage)
    {
      allLogs := if medicationId > 0 then repositoryLogs else [];
    }

    /** `nextPage`: one page on, unless already on the last page. */
    method NextPage()
      modifies this
      ensures old(currentPage) < old(PageCount()) - 1 ==> currentPage == old(currentPage) + 1
      ensures old(currentPage) >= old(PageCount()) - 1 ==> currentPage == old(currentPage)
      ensures medicationId == old(medicationId) && allLogs == old(allLogs)
      ensures old(InRange()) ==> InRange()
      ensures old(currentPage) >= 0 ==> currentPage >= 0
    {
      var maxPage := PageCount() - 1;
      if currentPage < maxPage {
        currentPage := currentPage + 1;
      }
    }

    /** `previousPage`: one page back, unless already on the first page. */
    method PreviousPage()
      modifies this
      ensures old(currentPage) > 0 ==> currentPage == old(currentPage) - 1
      ensures old(currentPage) <= 0 ==> currentPage == old(currentPage)
      ensures medicationId == old(medicationId) && allLogs == old(allLogs)
      ensures old(InRange()) ==> InRange()
      ensures old(currentPage) >= 0 ==> currentPage >= 0
    {
      if currentPage > 0 {
        currentPage := currentPage - 1;
      }
    }
  }
}
