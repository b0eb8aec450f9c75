/** The customers page: a client-side list with a free-text search, ten
    customers per page, an "add customer" form that prepends, and status
    counts over the whole list. */
module Customers {
  import opened Seqs
  import opened Text
  import Paging

  const ItemsPerPage: nat := 10

  datatype CustomerStatus = Active | Inactive

  datatype Customer = Customer(
    id: int,
    name: string,
    email: string,
    phone: string,
    address: string,
    totalOrders: int,
    totalSpent: int,
    joinDate: string,
    status: CustomerStatus)

  /** The four text fields of the add form. */
  datatype CustomerForm = CustomerForm(name: string, email: string, phone: string, address: string)

  const EmptyForm: CustomerForm := CustomerForm("", "", "", "")

  datatype FormField = NameField | EmailField | PhoneField | AddressField

  datatype CustomersPage = CustomersPage(
    customers: seq<Customer>,
    searchTerm: string,
    currentPage: int,
    showAddModal: bool,
    form: CustomerForm)

  /** State before the mock list is installed. */
  const Initial: CustomersPage := CustomersPage([], "", 1, false, EmptyForm)

  /** The mount effect installs the generated list; its random fields are
      inputs here. */
  function Mount(s: CustomersPage, generated: seq<Customer>): (r: CustomersPage)
    ensures r.customers == generated
    ensures r.searchTerm == s.searchTerm && r.currentPage == s.currentPage && r.form == s.form
    ensures r.showAddModal == s.showAddModal
  {
    s.(customers := generated)
  }

  /** The generated list numbers its customers 1, 2, ... in order. */
  ghost predicate SeededIds(cs: seq<Customer>)
  {
    forall i :: 0 <= i < |cs| ==> cs[i].id == i + 1
  }

  /** The search predicate: the term occurs in the lower-cased name, in the
      lower-cased email, or (as typed) in the phone number. */
  predicate Matches(c: Customer, term: string)
  {
    || Contains(ToLower(c.name), ToLower(term))
    || Contains(ToLower(c.email), ToLower(term))
    || Contains(c.phone, term)
  }

  function Matcher(term: string): Customer -> bool
  {
    c => Matches(c, term)
  }

  /** `filteredCustomers`: the customers that match, in list order. */
  function FilteredCustomers(cs: seq<Customer>, term: string): (r: seq<Customer>)
    ensures |r| <= |cs|
    ensures forall c :: c in r <==> c in cs && Matches(c, term)
  {
    Filter(cs, Matcher(term))
  }

  /** The search result is a subsequence of the list, so it keeps the list's
      order; the empty search matches every customer and so shows the whole
      list. */
  lemma SearchKeepsOrder(cs: seq<Customer>, term: string)
    ensures exists idx :: EmbedsAt(FilteredCustomers(cs, term), cs, idx)
    ensures term == "" ==> FilteredCustomers(cs, term) == cs
  {
    FilterIsSubsequence(cs, Matcher(term));
    assert EmbedsAt(FilteredCustomers(cs, term), cs, KeptPositions(cs, Matcher(term)));
    if term == "" {
      forall i | 0 <= i < |cs|
        ensures Matches(cs[i], term)
      {
        ContainsEmpty(cs[i].phone);
      }
      FilterKeepsAll(cs, Matcher(term));
    }
  }

  /** `filteredCustomers`: the matches of the current term. */
  function Filtered(s: CustomersPage): (r: seq<Customer>)
    ensures forall c :: c in r <==> c in s.customers && Matches(c, s.searchTerm)
  {
    FilteredCustomers(s.customers, s.searchTerm)
  }

  /** `Math.ceil(filteredCustomers.length / 10)`: enough pages for every
      match, and none exactly when nothing matches. */
  function TotalPages(s: CustomersPage): (r: nat)
    ensures |Filtered(s)| <= r * ItemsPerPage
    ensures r == 0 <==> |Filtered(s)| == 0
  {
    Paging.TotalPages(|Filtered(s)|, ItemsPerPage)
  }

  /** `currentCustomers`: the current page of the search result. */
  function CurrentCustomers(s: CustomersPage): (r: seq<Customer>)
    ensures |r| <= ItemsPerPage
    ensures forall c :: c in r ==> c in s.customers && Matches(c, s.searchTerm)
  {
    var f := Filtered(s);
    var r := Paging.PageSlice(f, s.currentPage, ItemsPerPage);
    assert forall c :: c in r ==> c in f by {
      forall c | c in r
        ensures c in f
      {
        var i :| 0 <= i < |r| && r[i] == c;
        var a := SliceBound(Paging.Offset(s.currentPage, ItemsPerPage), |f|);
        var b := SliceBound(Paging.Offset(s.currentPage, ItemsPerPage) + ItemsPerPage, |f|);
        assert r == f[a..b];
        assert c == f[a + i];
      }
    }
    r
  }

  /** The pager is drawn only when the search matches something. */
  predicate PaginationShown(s: CustomersPage)
  {
    |Filtered(s)| > 0
  }

  /** The pager appears exactly when some customer matches the term. */
  lemma PagerShownIffSomethingMatches(s: CustomersPage)
    ensures PaginationShown(s) <==> exists c :: c in s.customers && Matches(c, s.searchTerm)
  {
    if PaginationShown(s) {
      assert Filtered(s)[0] in Filtered(s);
    }
  }

  /** Typing in the search box stores the term and goes back to page 1. */
  function SetSearchTerm(s: CustomersPage, term: string): (r: CustomersPage)
    ensures r.searchTerm == term && r.currentPage == 1
    ensures r.customers == s.customers && r.form == s.form && r.showAddModal == s.showAddModal
  {
    s.(searchTerm := term, currentPage := 1)
  }

  /** `handlePageChange`: the requested page, with no clamping. */
  function PageChange(s: CustomersPage, page: int): (r: CustomersPage)
    ensures r.currentPage == page
    ensures r.customers == s.customers && r.searchTerm == s.searchTerm
    ensures r.form == s.form && r.showAddModal == s.showAddModal
  {
    s.(currentPage := page)
  }

  /** After a search, the visible page is the start of the search result,
      and it is non-empty whenever anything matches. */
  lemma SearchShowsFirstPage(s: CustomersPage, term: string)
    ensures var r := SetSearchTerm(s, term);
      && CurrentCustomers(r) == Filtered(r)[..if |Filtered(r)| < ItemsPerPage then |Filtered(r)| else ItemsPerPage]
      && (PaginationShown(r) ==> |CurrentCustomers(r)| >= 1)
  {
  }

  /** The "add customer" button opens the dialog; the form keeps what was
      typed before. */
  function OpenAddModal(s: CustomersPage): (r: CustomersPage)
    ensures r.showAddModal
    ensures r.customers == s.customers && r.form == s.form && r.searchTerm == s.searchTerm && r.currentPage == s.currentPage
  {
    s.(showAddModal := true)
  }

  /** The close and cancel buttons hide the dialog without clearing the form. */
  function CloseAddModal(s: CustomersPage): (r: CustomersPage)
    ensures !r.showAddModal
    ensures r.customers == s.customers && r.form == s.form && r.searchTerm == s.searchTerm && r.currentPage == s.currentPage
  {
    s.(showAddModal := false)
  }

  /** `handleInputChange`: one field of the form takes the typed value. */
  function UpdateForm(s: CustomersPage, field: FormField, value: string): (r: CustomersPage)
    ensures r.customers == s.customers && r.searchTerm == s.searchTerm && r.currentPage == s.currentPage
    ensures field == NameField ==> r.form == s.form.(name := value)
    ensures field == EmailField ==> r.form == s.form.(email := value)
    ensures field == PhoneField ==> r.form == s.form.(phone := value)
    ensures field == AddressField ==> r.form == s.form.(address := value)
    ensures r.showAddModal == s.showAddModal
  {
    match field
    case NameField => s.(form := s.form.(name := value))
    case EmailField => s.(form := s.form.(email := value))
    case PhoneField => s.(form := s.form.(phone := value))
    case AddressField => s.(form := s.form.(address := value))
  }

  /** The record `handleAddCustomer` builds from the form. */
  function NewCustomer(cs: seq<Customer>, form: CustomerForm, joinDate: string): Customer
  {
    Customer(|cs| + 1, form.name, form.email, form.phone, form.address, 0, 0, joinDate, Active)
  }

  /** `handleAddCustomer`: the new customer goes in front of the list with
      the next number after the list's length, no orders, nothing spent and
      status active; the form is emptied and the dialog closed. The search
      and the page are left as they are. */
  function AddCustomer(s: CustomersPage, joinDate: string): (r: CustomersPage)
    ensures |r.customers| == |s.customers| + 1
    ensures r.customers[1..] == s.customers
    ensures var c := r.customers[0];
      && c.id == |s.customers| + 1
      && c.name == s.form.name && c.email == s.form.email
      && c.phone == s.form.phone && c.address == s.form.address
      && c.totalOrders == 0 && c.totalSpent == 0 && c.status == Active && c.joinDate == joinDate
    ensures r.form == EmptyForm && !r.showAddModal
    ensures r.searchTerm == s.searchTerm && r.currentPage == s.currentPage
  {
    s.(customers := [NewCustomer(s.customers, s.form, joinDate)] + s.customers,
       form := EmptyForm,
       showAddModal := false)
  }

  /** Every field of the form is filled in; the browser refuses to submit
      the form otherwise, since all four inputs are marked required. */
  predicate FormComplete(f: CustomerForm)
  {
    f.name != "" && f.email != "" && f.phone != "" && f.address != ""
  }

  /** Pressing the submit button: the customer is added only when every
      required field is filled in; otherwise nothing changes. */
  function SubmitAddForm(s: CustomersPage, joinDate: string): (r: CustomersPage)
    ensures FormComplete(s.form) ==> r == AddCustomer(s, joinDate)
    ensures !FormComplete(s.form) ==> r == s
  {
    if FormComplete(s.form) then AddCustomer(s, joinDate) else s
  }

  /** Customer ids are pairwise distinct and lie in `1..n` for a list of `n`. */
  ghost predicate IdsWithinLength(cs: seq<Customer>)
  {
    && (forall i :: 0 <= i < |cs| ==> 1 <= cs[i].id <= |cs|)
    && (forall i, j :: 0 <= i < j < |cs| ==> cs[i].id != cs[j].id)
  }

  /** The generated numbering satisfies the id invariant. */
  lemma SeededIdsWithinLength(cs: seq<Customer>)
    requires SeededIds(cs)
    ensures IdsWithinLength(cs)
  {
  }

  /** Adding a customer keeps ids distinct: the new id `n + 1` lies above
      every id in a list of `n`. Since the page has no delete action, ids
      stay unique for as long as the page lives. */
  lemma AddKeepsIdsUnique(s: CustomersPage, joinDate: string)
    requires IdsWithinLength(s.customers)
    ensures IdsWithinLength(AddCustomer(s, joinDate).customers)
  {
    var r := AddCustomer(s, joinDate).customers;
    forall i, j | 0 <= i < j < |r|
      ensures r[i].id != r[j].id
    {
      assert r[j] == s.customers[j - 1];
    }
  }

  datatype CustomerStats = CustomerStats(total: nat, active: nat, inactive: nat)

  function ActiveCustomers(cs: seq<Customer>): seq<Customer>
  {
    Filter(cs, (c: Customer) => c.status == Active)
  }

  function InactiveCustomers(cs: seq<Customer>): seq<Customer>
  {
    Filter(cs, (c: Customer) => c.status == Inactive)
  }

  /** `stats`: counted over the whole list, whatever the search. */
  function Stats(s: CustomersPage): (r: CustomerStats)
    ensures r.total == |s.customers|
    ensures r.active <= r.total && r.inactive <= r.total
  {
    CustomerStats(|s.customers|, |ActiveCustomers(s.customers)|, |InactiveCustomers(s.customers)|)
  }

  /** Every customer is either active or inactive, so the two counts add up
      to the total. */
  lemma {:induction false} StatusCountsPartition(cs: seq<Customer>)
    ensures |ActiveCustomers(cs)| + |InactiveCustomers(cs)| == |cs|
    decreases |cs|
  {
    if |cs| > 0 {
      StatusCountsPartition(cs[1..]);
    }
  }

  /** The figures ignore the search and the page: searching or paging never
      changes them, while adding a customer raises the total and the active
      count by one. */
  lemma StatsIgnoreSearch(s: CustomersPage, term: string, page: int, joinDate: string)
    ensures Stats(SetSearchTerm(s, term)) == Stats(s)
    ensures Stats(PageChange(s, page)) == Stats(s)
    ensures Stats(AddCustomer(s, joinDate)).total == Stats(s).total + 1
    ensures Stats(AddCustomer(s, joinDate)).active == Stats(s).active + 1
    ensures Stats(AddCustomer(s, joinDate)).inactive == Stats(s).inactive
  {
  }
}
