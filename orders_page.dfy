/** The orders list page (app/orders/page.tsx): search, pages of five,
    the payment badge and the outstanding balance of each row. */
module OrdersPage {
  import opened Common
  import opened Text
  import opened Schema
  import opened Paging
  import opened OrdenesApi

  const OrdersPerPage := 5

  /** The badge of a payment status, read as text: any text other than
      the three named ones gets the outline style. */
  function OrderBadge(status: string): (b: BadgeVariant)
    ensures b == Default <==> status == "pagado"
    ensures b == Secondary <==> status == "reembolsado"
    ensures b == Destructive <==> status == "pendiente"
    ensures b == Outline <==> status !in {"pagado", "reembolsado", "pendiente"}
  {
    if status == "pagado" then Default
    else if status == "reembolsado" then Secondary
    else if status == "pendiente" then Destructive
    else Outline
  }

  /** The four stored statuses get four different badges; a cancelled
      order is drawn in outline. */
  lemma StatusBadges()
    ensures OrderBadge(StatusPagoText(Pagado)) == Default
    ensures OrderBadge(StatusPagoText(Reembolsado)) == Secondary
    ensures OrderBadge(StatusPagoText(Pendiente)) == Destructive
    ensures OrderBadge(StatusPagoText(Cancelado)) == Outline
  {
  }

  /** The "Saldo Pendiente" column: what is left to pay. It is zero
      exactly when the amount paid equals the total, and negative when
      more was paid than owed. */
  function Balance(o: Order): (r: real)
    ensures r == 0.0 <==> o.montoPagado == o.totalPago
    ensures r > 0.0 <==> o.montoPagado < o.totalPago
    ensures o.montoPagado + r == o.totalPago
  {
    o.totalPago - o.montoPagado
  }

  /** The search: the term occurs, ignoring case, in the user's name,
      the user's email or the payment status. */
  predicate OrderMatches(o: OrderWithUser, term: string)
  {
    MatchesTerm(o.nombreUsuario, term) || MatchesTerm(o.correoUsuario, term)
    || MatchesTerm(StatusPagoText(o.order.statusPago), term)
  }

  /** The page's state: the joined orders the query delivered (none
      while it loads), the search box and the current page. */
  class OrdersList {
    var rows: seq<OrderWithUser>
    var searchTerm: string
    var currentPage: int

    /** The page number never drops below 1. */
    ghost predicate Valid()
      reads this
    {
      currentPage >= 1
    }

    /** The page as first shown: empty search, page 1. */
    constructor (rows: seq<OrderWithUser>)
      ensures Valid()
      ensures this.rows == rows && searchTerm == "" && currentPage == 1
    {
      this.rows := rows;
      searchTerm := "";
      currentPage := 1;
    }

    /** `filteredOrders`: the rows that match the search, in the
        query's order (newest first). */
    function Filtered(): (r: seq<OrderWithUser>)
      reads this
      ensures |r| <= |rows|
      ensures forall x :: x in r <==> x in rows && OrderMatches(x, searchTerm)
    {
      var term := searchTerm;
      Filter(rows, (x: OrderWithUser) => OrderMatches(x, term))
    }

    /** `paginatedOrders`: the current page of the filtered rows. */
    function Paginated(): (r: seq<OrderWithUser>)
      reads this
      requires Valid()
      ensures |r| <= OrdersPerPage
      ensures r != [] <==> currentPage <= TotalPages()
      ensures forall x :: x in r ==> x in rows && OrderMatches(x, searchTerm)
    {
      PageContents(Filtered(), currentPage, OrdersPerPage);
      PageOf(Filtered(), currentPage, OrdersPerPage)
    }

    /** `totalPages`. */
    function TotalPages(): (n: nat)
      reads this
      ensures n * OrdersPerPage >= |Filtered()|
      ensures n == 0 <==> Filtered() == []
    {
      Paging.TotalPages(|Filtered()|, OrdersPerPage)
    }

    /** The previous and next controls are shown only when there is
        more than one page. */
    predicate ShowsPagination()
      reads this
    {
      TotalPages() > 1
    }

    /** Typing in the search box: the term is replaced and the page goes
        back to 1. */
    method Search(term: string)
      modifies this`searchTerm, this`currentPage
      ensures Valid()
      ensures searchTerm == term && currentPage == 1
    {
      searchTerm := term;
      currentPage := 1;
    }

    /** "Previous": one page back, never below page 1. */
    method Previous()
      requires Valid() && ShowsPagination()
      modifies this`currentPage
      ensures Valid()
      ensures currentPage == Max(old(currentPage) - 1, 1)
      ensures old(currentPage) <= TotalPages() ==> currentPage <= TotalPages()
    {
      currentPage := Max(currentPage - 1, 1);
    }

    /** "Next": one page on, never past the last page. */
    method Next()
      requires Valid() && ShowsPagination()
      modifies this`currentPage
      ensures Valid()
      ensures currentPage == Min(old(currentPage) + 1, TotalPages())
      ensures currentPage <= TotalPages()
    {
      currentPage := Min(currentPage + 1, TotalPages());
    }

    /** The delete action of a row: it only logs the id, so neither the
        page nor the database changes. */
    method HandleEliminar(id: OrderId)
      ensures unchanged(this)
    {
    }

    /** The query delivers new rows; search and page are kept. */
    method Refresh(newRows: seq<OrderWithUser>)
      modifies this`rows
      ensures rows == newRows
    {
      rows := newRows;
    }
  }

  /** An empty search keeps every row. */
  lemma EmptySearchKeepsAll(page: OrdersList)
    requires page.searchTerm == ""
    ensures page.Filtered() == page.rows
  {
    var term := page.searchTerm;
    forall i | 0 <= i < |page.rows| ensures OrderMatches(page.rows[i], term) {
      IncludesEmpty(ToLower(page.rows[i].nombreUsuario));
    }
    FilterKeepsAll(page.rows, (x: OrderWithUser) => OrderMatches(x, term));
  }

  /** Searching for a status's text finds every order in that status. */
  lemma StatusSearchFindsAll(page: OrdersList, s: StatusPago)
    requires page.searchTerm == StatusPagoText(s)
    ensures forall x :: x in page.rows && x.order.statusPago == s ==> x in page.Filtered()
  {
    forall x | x in page.rows && x.order.statusPago == s ensures OrderMatches(x, page.searchTerm) {
      var t := ToLower(StatusPagoText(s));
      assert t <= t;
    }
  }

  /** Walking the pages from 1 to `TotalPages` shows every matching row
      once, in order. */
  lemma PagesShowAllMatches(page: OrdersList)
    ensures PagesUpTo(page.Filtered(), page.TotalPages(), OrdersPerPage) == page.Filtered()
  {
    PagesCoverList(page.Filtered(), OrdersPerPage);
  }
}
