/** The samples list page (app/samples/page.tsx): search, pages of
    eight, and the status badge and results action of each row. */
module SamplesPage {
  import opened Common
  import opened Text
  import opened Schema
  import opened Paging
  import opened MuestrasApi

  const SamplesPerPage := 8

  /** The badge of a sample's state. */
  function SampleBadge(e: Estado): (b: BadgeVariant)
    ensures b == Default <==> e == Finalizada
    ensures b == Secondary <==> e == Procesando
    ensures b == Destructive <==> e == SinTomar
    ensures b != Outline
  {
    match e
    case Finalizada => Default
    case Procesando => Secondary
    case SinTomar => Destructive
  }

  const AddResults := "Agregar Resultados"
  const EditResults := "Editar Resultados"

  /** The label of a row's results action: results are added to a
      sample not yet finished and edited on a finished one. */
  function ResultsActionLabel(e: Estado): (r: string)
    ensures r == AddResults <==> e != Finalizada
    ensures r == EditResults <==> e == Finalizada
  {
    if e != Finalizada then AddResults else EditResults
  }

  /** The search: the term occurs, ignoring case, in the analysis name,
      the patient's name or the patient's email. */
  predicate SampleMatches(s: SampleWithDetails, term: string)
  {
    MatchesTerm(s.analysisName, term) || MatchesTerm(s.patientName, term) || MatchesTerm(s.patientEmail, term)
  }

  /** The page's state: the rows the query delivered (none while it
      loads), the search box and the current page. */
  class SamplesList {
    var rows: seq<SampleWithDetails>
    var searchTerm: string
    var currentPage: int

    /** The page number never drops below 1. */
    ghost predicate Valid()
      reads this
    {
      currentPage >= 1
    }

    /** The page as first shown: empty search, page 1. */
    constructor (rows: seq<SampleWithDetails>)
      ensures Valid()
      ensures this.rows == rows && searchTerm == "" && currentPage == 1
    {
      this.rows := rows;
      searchTerm := "";
      currentPage := 1;
    }

    /** `filteredSamples`: the rows that match the search, in the
        query's order. */
    function Filtered(): (r: seq<SampleWithDetails>)
      reads this
      ensures |r| <= |rows|
      ensures forall x :: x in r <==> x in rows && SampleMatches(x, searchTerm)
    {
      var term := searchTerm;
      Filter(rows, (x: SampleWithDetails) => SampleMatches(x, term))
    }

    /** `paginatedSamples`: the current page of the filtered rows. */
    function Paginated(): (r: seq<SampleWithDetails>)
      reads this
      requires Valid()
      ensures |r| <= SamplesPerPage
      ensures r != [] <==> currentPage <= TotalPages()
      ensures forall x :: x in r ==> x in rows && SampleMatches(x, searchTerm)
    {
      PageContents(Filtered(), currentPage, SamplesPerPage);
      PageOf(Filtered(), currentPage, SamplesPerPage)
    }

    /** `totalPages`. */
    function TotalPages(): (n: nat)
      reads this
      ensures n * SamplesPerPage >= |Filtered()|
      ensures n == 0 <==> Filtered() == []
    {
      Paging.TotalPages(|Filtered()|, SamplesPerPage)
    }

    /** The previous and next controls are shown only when there is
        more than one page. */
    predicate ShowsPagination()
      reads this
    {
      TotalPages() > 1
    }

    /** Typing in the search box: the term is replaced and the page goes
        back to 1. */
    method Search(term: string)
      modifies this`searchTerm, this`currentPage
      ensures Valid()
      ensures searchTerm == term && currentPage == 1
    {
      searchTerm := term;
      currentPage := 1;
    }

    /** "Previous": one page back, never below page 1. */
    method Previous()
      requires Valid() && ShowsPagination()
      modifies this`currentPage
      ensures Valid()
      ensures currentPage == Max(1, old(currentPage) - 1)
      ensures old(currentPage) <= TotalPages() ==> currentPage <= TotalPages()
    {
      currentPage := Max(1, currentPage - 1);
    }

    /** "Next": one page on, never past the last page. */
    method Next()
      requires Valid() && ShowsPagination()
      modifies this`currentPage
      ensures Valid()
      ensures currentPage == Min(TotalPages(), old(currentPage) + 1)
      ensures currentPage <= TotalPages()
    {
      currentPage := Min(TotalPages(), currentPage + 1);
    }

    /** The query delivers new rows; search and page are kept. */
    method Refresh(newRows: seq<SampleWithDetails>)
      modifies this`rows
      ensures rows == newRows
    {
      rows := newRows;
    }
  }

  /** An empty search keeps every row. */
  lemma EmptySearchKeepsAll(page: SamplesList)
    requires page.searchTerm == ""
    ensures page.Filtered() == page.rows
  {
    var term := page.searchTerm;
    forall i | 0 <= i < |page.rows| ensures SampleMatches(page.rows[i], term) {
      IncludesEmpty(ToLower(page.rows[i].analysisName));
    }
    FilterKeepsAll(page.rows, (x: SampleWithDetails) => SampleMatches(x, term));
  }

  /** Walking the pages from 1 to `TotalPages` shows every matching row
      once, in order. */
  lemma PagesShowAllMatches(page: SamplesList)
    ensures PagesUpTo(page.Filtered(), page.TotalPages(), SamplesPerPage) == page.Filtered()
  {
    PagesCoverList(page.Filtered(), SamplesPerPage);
  }
}
