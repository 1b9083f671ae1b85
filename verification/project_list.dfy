/**
 * The page, search and selection state of the two project lists: the
 * user's cards (src/pages/UserDashboard.jsx) and the admin table
 * (src/pages/ProjectManagement.jsx). Both pages keep the search, the page,
 * the page count, the loaded projects and the details dialog, with the same
 * handlers. The user's list also keeps the project total, which the admin
 * table does not, and hides the pagination bar when there is a single page;
 * the admin table's status change request is left out. The request that
 * loads a page is left out too; its outcome is the `Loaded` and `LoadFailed`
 * events.
 */
module ProjectList {
  import opened Wrappers

  /** The pagination bar: whether it is drawn, and which buttons are disabled. */
  datatype Pager = Pager(shown: bool, prevDisabled: bool, nextDisabled: bool)

  /** A click on an enabled Previous (`next` false) or Next (`next` true)
      button; a disabled button does nothing. */
  function Click(page: int, totalPages: int, next: bool): (newPage: int)
    ensures 1 <= page <= totalPages ==> 1 <= newPage <= totalPages
    ensures newPage == page || newPage == (if next then page + 1 else page - 1)
    ensures newPage == page <==> (if next then page == totalPages else page == 1)
  {
    if next then (if page == totalPages then page else page + 1)
    else (if page == 1 then page else page - 1)
  }

  /** The page after a series of clicks. */
  function Clicks(page: int, totalPages: int, clicks: seq<bool>): int
    decreases |clicks|
  {
    if clicks == [] then page else Clicks(Click(page, totalPages, clicks[0]), totalPages, clicks[1..])
  }

  /** From a page within the page count, no series of clicks leaves it. */
  lemma {:induction false} ClicksStayInRange(page: int, totalPages: int, clicks: seq<bool>)
    requires 1 <= page <= totalPages
    ensures 1 <= Clicks(page, totalPages, clicks) <= totalPages
    decreases |clicks|
  {
    if clicks != [] {
      ClicksStayInRange(Click(page, totalPages, clicks[0]), totalPages, clicks[1..]);
    }
  }

  /** Enough Next clicks reach the last page and stay there. */
  lemma {:induction false} NextReachesLastPage(page: int, totalPages: int, clicks: seq<bool>)
    requires 1 <= page <= totalPages
    requires |clicks| >= totalPages - page
    requires forall i :: 0 <= i < |clicks| ==> clicks[i]
    ensures Clicks(page, totalPages, clicks) == totalPages
    decreases |clicks|
  {
    if clicks != [] {
      NextReachesLastPage(Click(page, totalPages, true), totalPages, clicks[1..]);
    }
  }

  class ListState<P> {
    /** True for the user's list, which draws the bar only for several pages. */
    const hideSinglePage: bool

    var search: string
    var page: int
    var totalPages: int
    var total: int
    var projects: seq<P>
    var loading: bool
    var selectedProject: Option<P>
    var showDetailsModal: bool

    ghost predicate Valid()
      reads this
    {
      page >= 1
    }

    /** The bar is drawn under a loaded, non-empty list (and on the user's
        list only for more than one page); Previous is disabled exactly on
        page 1 and Next exactly on the last page. */
    function Pagination(): (pager: Pager)
      reads this
      ensures pager.shown <==> !loading && projects != [] && (!hideSinglePage || totalPages > 1)
      ensures pager.prevDisabled <==> page == 1
      ensures pager.nextDisabled <==> page == totalPages
      ensures pager.prevDisabled <==> Click(page, totalPages, false) == page
      ensures pager.nextDisabled <==> Click(page, totalPages, true) == page
    {
      Pager(!loading && projects != [] && (!hideSinglePage || totalPages > 1), page == 1, page == totalPages)
    }

    /** On a page within the page count, Previous is enabled exactly when
        there is an earlier page and Next exactly when there is a later one,
        so an enabled button never leaves the range; over a single page both
        are disabled. */
    lemma PagerWithinRange()
      requires 1 <= page <= totalPages
      ensures !Pagination().prevDisabled <==> 1 <= page - 1
      ensures !Pagination().nextDisabled <==> page + 1 <= totalPages
      ensures Pagination().prevDisabled && Pagination().nextDisabled <==> totalPages == 1
    {
    }

    /** The details dialog is drawn only when it is shown and a project is selected. */
    predicate DetailsDrawn()
      reads this
    {
      showDetailsModal && selectedProject.Some?
    }

    constructor (hideSinglePage: bool)
      ensures Valid()
      ensures this.hideSinglePage == hideSinglePage
      ensures search == "" && page == 1 && totalPages == 1 && total == 0
      ensures projects == [] && !loading && selectedProject.None? && !showDetailsModal
    {
      this.hideSinglePage := hideSinglePage;
      search, page, totalPages, total := "", 1, 1, 0;
      projects, loading := [], false;
      selectedProject, showDetailsModal := None, false;
    }

    /** Typing in the search box: a new search starts on page 1. */
    method EditSearch(text: string)
      requires Valid()
      modifies this`search, this`page
      ensures Valid()
      ensures search == text && page == 1
      ensures totalPages == old(totalPages) && total == old(total)
      ensures projects == old(projects) && loading == old(loading)
      ensures selectedProject == old(selectedProject) && showDetailsModal == old(showDetailsModal)
    {
      search := text;
      page := 1;
    }

    /** The Previous button: only a drawn, enabled button changes the page. */
    method PreviousPage()
      requires Valid()
      modifies this`page
      ensures Valid()
      ensures page == if old(Pagination()).shown && !old(Pagination()).prevDisabled then old(page) - 1 else old(page)
      ensures page == if old(Pagination()).shown then Click(old(page), totalPages, false) else old(page)
      ensures 1 <= old(page) <= totalPages ==> 1 <= page <= totalPages
      ensures search == old(search) && totalPages == old(totalPages) && total == old(total)
      ensures projects == old(projects) && loading == old(loading)
      ensures selectedProject == old(selectedProject) && showDetailsModal == old(showDetailsModal)
    {
      var pager := Pagination();
      if pager.shown && !pager.prevDisabled {
        page := page - 1;
      }
    }

    /** The Next button: only a drawn, enabled button changes the page. */
    method NextPage()
      requires Valid()
      modifies this`page
      ensures Valid()
      ensures page == if old(Pagination()).shown && !old(Pagination()).nextDisabled then old(page) + 1 else old(page)
      ensures page == if old(Pagination()).shown then Click(old(page), totalPages, true) else old(page)
      ensures 1 <= old(page) <= totalPages ==> 1 <= page <= totalPages
      ensures search == old(search) && totalPages == old(totalPages) && total == old(total)
      ensures projects == old(projects) && loading == old(loading)
      ensures selectedProject == old(selectedProject) && showDetailsModal == old(showDetailsModal)
    {
      var pager := Pagination();
      if pager.shown && !pager.nextDisabled {
        page := page + 1;
      }
    }

    /** A request for the current search and page goes out. */
    method LoadStarted()
      requires Valid()
      modifies this`loading
      ensures Valid() && loading
    {
      loading := true;
    }

    /** The request answered with a page of projects and the counts. */
    method Loaded(pageProjects: seq<P>, pageCount: int, projectCount: int)
      requires Valid()
      modifies this`projects, this`totalPages, this`total, this`loading
      ensures Valid() && !loading
      ensures projects == pageProjects && totalPages == pageCount && total == projectCount
    {
      projects, totalPages, total := pageProjects, pageCount, projectCount;
      loading := false;
    }

    /** The request failed: the previous list stays. */
    method LoadFailed()
      requires Valid()
      modifies this`loading
      ensures Valid() && !loading
    {
      loading := false;
    }

    /** `openDetailsModal(project)`. */
    method OpenDetails(project: P)
      requires Valid()
      modifies this`selectedProject, this`showDetailsModal
      ensures Valid()
      ensures selectedProject == Some(project) && showDetailsModal && DetailsDrawn()
    {
      selectedProject := Some(project);
      showDetailsModal := true;
    }

    /** `closeDetailsModal()`. */
    method CloseDetails()
      requires Valid()
      modifies this`selectedProject, this`showDetailsModal
      ensures Valid()
      ensures selectedProject.None? && !showDetailsModal && !DetailsDrawn()
    {
      selectedProject := None;
      showDetailsModal := false;
    }
  }
}
