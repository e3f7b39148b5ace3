/** The admin order table (src/pages/admin/AdminOrders.tsx): the three mock orders, the search
    over customer name and order id, the status badge's colour and its capitalised label. */
module AdminOrders {
  import Text
  import Seqs
  import SearchFilter

  datatype MockOrder = MockOrder(
    id: string,
    customerName: string,
    customerEmail: string,
    total: int,
    status: string,
    createdAt: string)

  /** The page's hard-coded orders. */
  function MockOrders(): seq<MockOrder>
  {
    [ MockOrder("ORD001", "Rahul Kumar", "rahul@example.com", 1250, "pending", "2024-01-15T10:30:00"),
      MockOrder("ORD002", "Priya Sharma", "priya@example.com", 890, "confirmed", "2024-01-14T15:45:00"),
      MockOrder("ORD003", "Amit Patel", "amit@example.com", 2100, "delivered", "2024-01-13T09:15:00") ]
  }

  /** The fields an order is searched by: the customer's name, then the order id. */
  function OrderKey(o: MockOrder): (string, string)
  {
    (o.customerName, o.id)
  }

  predicate MatchesOrder(o: MockOrder, term: string)
  {
    Text.IncludesIgnoringCase(o.customerName, term) || Text.IncludesIgnoringCase(o.id, term)
  }

  /** `filteredOrders`. */
  function FilteredOrders(os: seq<MockOrder>, term: string): (r: seq<MockOrder>)
    ensures Seqs.IsSubsequence(r, os)
    ensures forall i :: 0 <= i < |r| ==> MatchesOrder(r[i], term)
  {
    SearchFilter.Search(os, OrderKey, term)
  }

  /** An order is listed exactly when its customer name or id contains the term, as often as it
      occurs; one matching neither is never listed. */
  lemma FilteredOrdersExactly(os: seq<MockOrder>, term: string, o: MockOrder)
    ensures o in FilteredOrders(os, term) <==> o in os && MatchesOrder(o, term)
    ensures multiset(FilteredOrders(os, term))[o] == if MatchesOrder(o, term) then multiset(os)[o] else 0
  {
    SearchFilter.SearchExactly(os, OrderKey, term, o);
  }

  /** The letter case of the term does not matter. */
  lemma OrderSearchIgnoresCase(os: seq<MockOrder>, t1: string, t2: string)
    requires Text.Lower(t1) == Text.Lower(t2)
    ensures FilteredOrders(os, t1) == FilteredOrders(os, t2)
  {
    SearchFilter.SearchIgnoresTermCase(os, OrderKey, t1, t2);
  }

  /** An empty search box lists all three mock orders. */
  lemma EmptySearchListsAllOrders()
    ensures FilteredOrders(MockOrders(), "") == MockOrders()
    ensures |FilteredOrders(MockOrders(), "")| == 3
  {
    SearchFilter.SearchEmptyTerm(MockOrders(), OrderKey);
  }

  /** Whether an order is kept never depends on its e-mail address, nor on its total, status
      or date. */
  lemma EmailNeverSearched(o: MockOrder, email: string, total: int, status: string, createdAt: string, term: string)
    ensures MatchesOrder(o.(customerEmail := email, total := total, status := status, createdAt := createdAt), term)
            == MatchesOrder(o, term)
  {
  }

  /** Searching for a customer's full e-mail address finds nothing, although it is shown in
      the table: the '@' occurs in no name or id. */
  lemma EmailSearchFindsNothing()
    ensures FilteredOrders(MockOrders(), "rahul@example.com") == []
  {
    var os := MockOrders();
    var term := "rahul@example.com";
    assert '@' in term by {
      assert term[5] == '@';
    }
    forall i | 0 <= i < |os| ensures !SearchFilter.Hit(OrderKey(os[i]), term) {
      Text.IncludesNeedsChar(os[i].customerName, term, '@');
      Text.IncludesNeedsChar(os[i].id, term, '@');
    }
    SearchFilter.SearchEmpty(os, OrderKey, term);
  }

  /** The table's empty state. */
  predicate ShowsNoOrdersFound(filtered: seq<MockOrder>)
  {
    |filtered| == 0
  }

  /** "No orders found" appears exactly when no order matches the term. */
  lemma NoOrdersFound(os: seq<MockOrder>, term: string)
    ensures ShowsNoOrdersFound(FilteredOrders(os, term))
            <==> forall i :: 0 <= i < |os| ==> !MatchesOrder(os[i], term)
  {
    SearchFilter.SearchEmpty(os, OrderKey, term);
  }

  const DefaultStatusClass: string := "bg-secondary text-secondary-foreground"

  /** `getStatusColor`. */
  function StatusColor(status: string): string
  {
    if status == "pending" then "bg-yellow-500/20 text-yellow-600"
    else if status == "confirmed" then "bg-blue-500/20 text-blue-600"
    else if status == "delivered" then "bg-green-500/20 text-green-600"
    else if status == "cancelled" then "bg-red-500/20 text-red-600"
    else DefaultStatusClass
  }

  predicate KnownStatus(status: string)
  {
    status in {"pending", "confirmed", "delivered", "cancelled"}
  }

  /** The four known statuses get four different classes, none of them the default; every other
      string, whatever its case, gets the default. */
  lemma StatusColors(s1: string, s2: string)
    ensures KnownStatus(s1) && KnownStatus(s2) ==> (StatusColor(s1) == StatusColor(s2) <==> s1 == s2)
    ensures StatusColor(s1) == DefaultStatusClass <==> !KnownStatus(s1)
    ensures StatusColor("Pending") == DefaultStatusClass
  {
  }

  /** The badge text: the first character upper-cased, the rest as it is; the empty status
      stays empty. */
  function StatusLabel(status: string): (r: string)
    ensures |r| == |status|
  {
    if status == [] then [] else [Text.UpperChar(status[0])] + status[1..]
  }

  /** Only the first character can change, and only a lower-case letter changes, into its
      upper-case form: the label never starts with a lower-case letter, it lower-cases to what the
      status lower-cases to, and labelling twice changes nothing more. */
  lemma StatusLabelOnlyCapitalises(status: string)
    ensures forall i :: 1 <= i < |status| ==> StatusLabel(status)[i] == status[i]
    ensures Text.Lower(StatusLabel(status)) == Text.Lower(status)
    ensures StatusLabel(StatusLabel(status)) == StatusLabel(status)
    ensures status != [] && 'a' <= status[0] <= 'z' ==> 'A' <= StatusLabel(status)[0] <= 'Z'
    ensures status != [] ==> !('a' <= StatusLabel(status)[0] <= 'z')
    ensures status != [] && StatusLabel(status)[0] != status[0] ==> 'a' <= status[0] <= 'z'
  {
    var r := StatusLabel(status);
    if status != [] {
      assert Text.Lower(r)[0] == Text.Lower(status)[0];
    }
  }

  /** The labels of the four known statuses. */
  lemma KnownStatusLabels()
    ensures StatusLabel("pending") == "Pending"
    ensures StatusLabel("confirmed") == "Confirmed"
    ensures StatusLabel("delivered") == "Delivered"
    ensures StatusLabel("cancelled") == "Cancelled"
  {
  }
}
