/** The users page: one page of ten users fetched per request, with
    `skip`/`limit` paging done by the server, and a role badge per row. */
module Users {
  import opened Seqs
  import opened Text
  import opened Remote
  import Paging

  const ItemsPerPage: nat := 10

  datatype ApiUser = ApiUser(
    id: int,
    firstName: string,
    lastName: string,
    email: string,
    phone: string,
    username: string,
    role: string,
    image: string)

  /** A `limit`/`skip` request for users. */
  datatype UsersQuery = UsersQuery(limit: nat, skip: int)

  /** The part of the response the page reads. */
  datatype UsersResponse = UsersResponse(users: seq<ApiUser>, total: nat)

  datatype UsersPage = UsersPage(
    users: seq<ApiUser>,
    loading: bool,
    error: Option<string>,
    currentPage: int,
    totalItems: nat)

  const Initial: UsersPage := UsersPage([], true, None, 1, 0)

  /** The request `fetchUsers(page)` sends. */
  function RequestFor(page: int): (q: UsersQuery)
    ensures q.limit == ItemsPerPage
    ensures q.skip == Paging.Offset(page, ItemsPerPage)
    ensures page >= 1 ==> q.skip >= 0 && q.skip % ItemsPerPage == 0
  {
    UsersQuery(ItemsPerPage, Paging.Offset(page, ItemsPerPage))
  }

  /** Start of `fetchUsers`. */
  function BeginFetch(s: UsersPage): (r: UsersPage)
    ensures r.loading && r.error == None
    ensures r.users == s.users && r.currentPage == s.currentPage && r.totalItems == s.totalItems
  {
    s.(loading := true, error := None)
  }

  /** End of `fetchUsers(page)`: on success the users, the total and the
      page all change together; on failure only the error is set and the
      page shown before stays. */
  function CompleteFetch(s: UsersPage, page: int, outcome: Fetch<UsersResponse>): (r: UsersPage)
    ensures !r.loading
    ensures outcome.Loaded? ==>
      && r.users == outcome.value.users && r.totalItems == outcome.value.total
      && r.currentPage == page && r.error == s.error
    ensures outcome.Failed? ==>
      && r.users == s.users && r.totalItems == s.totalItems
      && r.currentPage == s.currentPage && r.error == Some(outcome.message)
  {
    match outcome
    case Loaded(resp) => s.(users := resp.users, totalItems := resp.total, currentPage := page, loading := false)
    case Failed(m) => s.(error := Some(m), loading := false)
  }

  /** The retry button asks again for the page that is still current. */
  function RetryRequest(s: UsersPage): UsersQuery
  {
    RequestFor(s.currentPage)
  }

  /** A failed page change followed by a retry asks for the page shown
      before the failure, not for the one that failed. */
  lemma RetryAfterFailureKeepsPage(s: UsersPage, page: int, m: string)
    ensures RetryRequest(CompleteFetch(BeginFetch(s), page, Failed(m))) == RequestFor(s.currentPage)
  {
  }

  function TotalPages(s: UsersPage): nat
  {
    Paging.TotalPages(s.totalItems, ItemsPerPage)
  }

  /** A server that pages a full user list with `slice(skip, skip + limit)`
      and reports the list's length as the total. */
  function Serve(all: seq<ApiUser>, q: UsersQuery): UsersResponse
  {
    UsersResponse(JsSlice(all, q.skip, q.skip + q.limit), |all|)
  }

  /** Against such a server, fetching page `p` shows exactly the users that
      slicing the whole list client-side would show on page `p`, and the page
      count is the whole list's. */
  lemma ServerPagingMatchesClientPaging(s: UsersPage, all: seq<ApiUser>, p: int)
    ensures var r := CompleteFetch(BeginFetch(s), p, Loaded(Serve(all, RequestFor(p))));
      && r.users == Paging.PageSlice(all, p, ItemsPerPage)
      && TotalPages(r) == Paging.TotalPages(|all|, ItemsPerPage)
      && r.currentPage == p
  {
  }

  /** Badge style of a role: one of the three entries of the colour table,
      or the inherited `Object.prototype` member a role such as "constructor"
      looks up, which `||` does not replace since it is truthy. */
  datatype RoleStyle = AdminStyle | ModeratorStyle | UserStyle | InheritedMember(name: string)

  /** `getRoleBadge`: `colors[role] || colors.user`. Admin and moderator get
      their own styles; a role named like an inherited property finds that
      property; every other role, "user" included, gets the user style. */
  function RoleBadge(role: string): (r: RoleStyle)
    ensures r == AdminStyle <==> role == "admin"
    ensures r == ModeratorStyle <==> role == "moderator"
    ensures r == UserStyle <==> role != "admin" && role != "moderator" && role !in ObjectPrototypeNames
    ensures r.InheritedMember? <==> role in ObjectPrototypeNames
    ensures r.InheritedMember? ==> r.name == role
  {
    if role == "admin" then AdminStyle
    else if role == "moderator" then ModeratorStyle
    else if role in ObjectPrototypeNames then InheritedMember(role)
    else UserStyle
  }

  /** The three roles the demo data uses get three distinct styles. */
  lemma KnownRolesGetDistinctStyles()
    ensures RoleBadge("admin") != RoleBadge("moderator")
    ensures RoleBadge("admin") != RoleBadge("user") && RoleBadge("moderator") != RoleBadge("user")
    ensures RoleBadge("user") == UserStyle && RoleBadge("constructor") != UserStyle
  {
  }
}
