/** The users table (app/users/_userTable.tsx): search, pages of eight,
    numbered page links and the page changes they make. */
module UsersTable {
  import opened Common
  import opened Text
  import opened Schema
  import opened Paging

  const UsersPerPage := 8

  /** The search: the term occurs, ignoring case, in the name or the
      email. */
  predicate UserMatches(u: User, term: string)
  {
    MatchesTerm(u.nombre, term) || MatchesTerm(u.correo, term)
  }

  /** The page "Previous" asks for, as written: one less, with no lower
      bound. */
  function PreviousAsWritten(p: int): (r: int)
    ensures r == p - 1
  {
    p - 1
  }

  /** The page "Next" asks for, as written: one more, with no upper
      bound. */
  function NextAsWritten(p: int): (r: int)
    ensures r == p + 1
  {
    p + 1
  }

  /** As written, "Previous" from the first page of a two-page list
      (reachable from the keyboard: the link is only made
      unclickable) moves to page 0, whose slice is empty although there
      are users to show; "Next" from the last page likewise shows an
      empty page. */
  lemma PagingPastTheEnds(users: seq<User>)
    requires |users| == 9
    ensures TotalPages(|users|, UsersPerPage) == 2
    ensures PageOf(users, PreviousAsWritten(1), UsersPerPage) == []
    ensures PageOf(users, NextAsWritten(2), UsersPerPage) == []
  {
  }

  /** As written, one more "Previous" from page 0 (the link is no
      longer disabled there) asks for page -1, and `slice` reads the
      negative bounds from the end of the list: with 17 users the table
      shows the second to ninth, a window that is none of its pages. */
  lemma NegativePageWraps(users: seq<User>)
    requires |users| == 17
    ensures PageOf(users, PreviousAsWritten(0), UsersPerPage) == users[1..9]
    ensures PageOf(users, 1, UsersPerPage) == users[..8] && PageOf(users, 2, UsersPerPage) == users[8..16]
  {
  }

  /** The page a request for page `p` should land on: `p` clamped to
      the pages that exist, and page 1 when there are none. */
  function ClampPage(p: int, totalPages: nat): (r: int)
    ensures 1 <= r
    ensures totalPages >= 1 ==> r <= totalPages
    ensures 1 <= p <= totalPages ==> r == p
  {
    Max(1, Min(p, totalPages))
  }

  /** With the clamp, "Previous" from page 1 stays on page 1, and every
      page a control leads to shows users when there are any. */
  lemma ClampedPagingShowsUsers(users: seq<User>, p: int)
    requires users != []
    ensures ClampPage(PreviousAsWritten(1), TotalPages(|users|, UsersPerPage)) == 1
    ensures PageOf(users, ClampPage(p, TotalPages(|users|, UsersPerPage)), UsersPerPage) != []
  {
    PageContents(users, ClampPage(p, TotalPages(|users|, UsersPerPage)), UsersPerPage);
  }

  /** The table's state: the users the query delivered, the search box
      and the current page. */
  class UsersList {
    var rows: seq<User>
    var searchTerm: string
    var currentPage: int

    /** The page number never drops below 1. */
    ghost predicate Valid()
      reads this
    {
      currentPage >= 1
    }

    /** The table as first shown: empty search, page 1. */
    constructor (rows: seq<User>)
      ensures Valid()
      ensures this.rows == rows && searchTerm == "" && currentPage == 1
    {
      this.rows := rows;
      searchTerm := "";
      currentPage := 1;
    }

    /** `filteredUsers`: the users that match the search, in the
        query's order. */
    function Filtered(): (r: seq<User>)
      reads this
      ensures |r| <= |rows|
      ensures forall x :: x in r <==> x in rows && UserMatches(x, searchTerm)
    {
      var term := searchTerm;
      Filter(rows, (x: User) => UserMatches(x, term))
    }

    /** `currentUsers`: the slice from `currentPage * 8 - 8` to
        `currentPage * 8`. */
    function CurrentUsers(): (r: seq<User>)
      reads this
      requires Valid()
      ensures |r| <= UsersPerPage
      ensures r != [] <==> currentPage <= TotalPages()
      ensures forall x :: x in r ==> x in rows && UserMatches(x, searchTerm)
    {
      PageContents(Filtered(), currentPage, UsersPerPage);
      assert currentPage * UsersPerPage - UsersPerPage == (currentPage - 1) * UsersPerPage;
      Slice(Filtered(), currentPage * UsersPerPage - UsersPerPage, currentPage * UsersPerPage)
    }

    /** `totalPages`. */
    function TotalPages(): (n: nat)
      reads this
      ensures n * UsersPerPage >= |Filtered()|
      ensures n == 0 <==> Filtered() == []
    {
      Paging.TotalPages(|Filtered()|, UsersPerPage)
    }

    /** The numbered links, 1 to `TotalPages`. */
    function PageLinks(): (r: seq<int>)
      reads this
      ensures |r| == TotalPages()
      ensures forall i :: 0 <= i < |r| ==> r[i] == i + 1
    {
      var n := TotalPages();
      seq(n, i requires 0 <= i < n => i + 1)
    }

    /** Link `i` (counted from 0) is drawn active when it names the
        current page. */
    predicate IsActive(i: int)
      reads this
    {
      i + 1 == currentPage
    }

    /** `handleSearchChange`: the term is replaced and the page goes back
        to 1. */
    method HandleSearchChange(term: string)
      modifies this`searchTerm, this`currentPage
      ensures Valid()
      ensures searchTerm == term && currentPage == 1
    {
      searchTerm := term;
      currentPage := 1;
    }

    /** `paginate`, as the numbered links use it: go to page `n` as
        given. A link always names an existing page. */
    method Paginate(n: int)
      requires 1 <= n <= TotalPages()
      modifies this`currentPage
      ensures Valid()
      ensures currentPage == n
    {
      currentPage := n;
    }

    /** "Previous", with the request clamped to the existing pages. */
    method Previous()
      requires Valid()
      modifies this`currentPage
      ensures Valid()
      ensures currentPage == ClampPage(PreviousAsWritten(old(currentPage)), TotalPages())
    {
      currentPage := ClampPage(PreviousAsWritten(currentPage), TotalPages());
    }

    /** "Next", with the request clamped to the existing pages. */
    method Next()
      requires Valid()
      modifies this`currentPage
      ensures Valid()
      ensures currentPage == ClampPage(NextAsWritten(old(currentPage)), TotalPages())
    {
      currentPage := ClampPage(NextAsWritten(currentPage), TotalPages());
    }

    /** The query delivers new users; search and page are kept. */
    method Refresh(newRows: seq<User>)
      modifies this`rows
      ensures rows == newRows
    {
      rows := newRows;
    }
  }

  /** Exactly one link is active when the current page exists, and
      none otherwise. */
  lemma OneActiveLink(table: UsersList)
    ensures (exists i :: 0 <= i < |table.PageLinks()| && table.IsActive(i)) <==>
      1 <= table.currentPage <= table.TotalPages()
    ensures forall i, j :: 0 <= i < j < |table.PageLinks()| ==> !(table.IsActive(i) && table.IsActive(j))
  {
    if 1 <= table.currentPage <= table.TotalPages() {
      assert table.IsActive(table.currentPage - 1);
    }
  }

  /** An empty search keeps every user. */
  lemma EmptySearchKeepsAll(table: UsersList)
    requires table.searchTerm == ""
    ensures table.Filtered() == table.rows
  {
    var term := table.searchTerm;
    forall i | 0 <= i < |table.rows| ensures UserMatches(table.rows[i], term) {
      IncludesEmpty(ToLower(table.rows[i].nombre));
    }
    FilterKeepsAll(table.rows, (x: User) => UserMatches(x, term));
  }

  /** Following the links from 1 to `TotalPages` shows every matching
      user once, in order. */
  lemma PagesShowAllMatches(table: UsersList)
    ensures PagesUpTo(table.Filtered(), table.TotalPages(), UsersPerPage) == table.Filtered()
  {
    PagesCoverList(table.Filtered(), UsersPerPage);
  }
}
