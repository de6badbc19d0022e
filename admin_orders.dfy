/** The admin orders table (frontend/app/admin/orders/page.tsx): the search of the fetched
    orders by shipping email, the search button's notice and the clear button. */
module AdminOrders {
  import opened Seqs
  import opened Text
  import Auth

  /** An order as the page reads it from the server; only the shipping email is searched. */
  datatype AdminOrder = AdminOrder(id: string, email: string, createdAt: string, amount: real,
                                   currency: string, shippingEmail: string)

  /** The search condition: the shipping email contains the search text, ignoring case. */
  function EmailMatches(search: string): AdminOrder -> bool
  {
    (o: AdminOrder) => ContainsIgnoringCase(o.shippingEmail, search)
  }

  /** `filteredOrders`: every order while the search text is blank after trimming; otherwise the
      orders whose shipping email contains the untrimmed text. */
  function FilteredOrders(orders: seq<AdminOrder>, search: string): seq<AdminOrder>
  {
    if Trim(search) == "" then orders else Filter(orders, EmailMatches(search))
  }

  /** A blank or white-space search shows every order; any other search shows, in order, exactly
      the orders whose shipping email contains it. */
  lemma FilteredOrdersSpec(orders: seq<AdminOrder>, search: string)
    ensures Trim(search) == "" ==> FilteredOrders(orders, search) == orders
    ensures IsSubseq(FilteredOrders(orders, search), orders)
    ensures Trim(search) != "" ==> forall o :: o in FilteredOrders(orders, search) <==>
      o in orders && ContainsIgnoringCase(o.shippingEmail, search)
  {
    if Trim(search) == "" {
      Identity(orders);
    } else {
      FilterIsSubseq(orders, EmailMatches(search));
    }
  }

  lemma {:induction false} Identity(s: seq<AdminOrder>)
    ensures IsSubseq(s, s)
  {
    if s != [] {
      Identity(s[1..]);
      assert s == [s[0]] + s[1..];
    }
  }

  /** The search text is matched as typed, spaces included: a search with white space in it
      finds no order whose shipping email has none, even when its trimmed text occurs there. */
  lemma PaddedSearchMatchesNothing(orders: seq<AdminOrder>, search: string, j: nat)
    requires Trim(search) != "" && j < |search| && IsSpace(search[j])
    requires forall i :: 0 <= i < |orders| ==> NoSpace(orders[i].shippingEmail)
    ensures FilteredOrders(orders, search) == []
  {
    var keep := EmailMatches(search);
    forall o | o in orders ensures !keep(o) {
      var k :| 0 <= k < |orders| && orders[k] == o;
      SpacedSearchMisses(o.shippingEmail, search, j);
    }
    FilterNone(orders, keep);
  }

  /** A search with white space at position `j` does not occur in a text without any. */
  lemma SpacedSearchMisses(e: string, search: string, j: nat)
    requires j < |search| && IsSpace(search[j]) && NoSpace(e)
    ensures !ContainsIgnoringCase(e, search)
  {
    if ContainsIgnoringCase(e, search) {
      var le := Lower(e);
      var q := Lower(search);
      var i :| 0 <= i <= |le| && OccursAt(le, q, i);
      assert le[i + j] == q[j];
      CaseMapsKeepSpace();
      assert false;
    }
  }

  /** The text has no white space in it. */
  predicate NoSpace(s: string)
  {
    forall i :: 0 <= i < |s| ==> !IsSpace(s[i])
  }

  /** The notice `handleSearch` shows. */
  datatype Notice = Notice(title: string, description: string)

  /** `handleSearch`: a blank search only asks for an email; otherwise the title reports how
      many orders the search shows and the description says whether it found any. */
  function HandleSearch(orders: seq<AdminOrder>, search: string): (r: Notice)
    ensures Trim(search) == "" ==>
      r == Notice("Please enter an email address", "You must enter an email address to search for orders.")
    ensures Trim(search) != "" ==>
      r.title == Auth.DecimalString(|FilteredOrders(orders, search)|) + " Orders Found"
    ensures Trim(search) != "" && FilteredOrders(orders, search) != [] ==> |r.description| >= 6 && r.description[..6] == "Found "
    ensures Trim(search) != "" && FilteredOrders(orders, search) == [] ==> |r.description| >= 3 && r.description[..3] == "No "
  {
    if Trim(search) == "" then
      Notice("Please enter an email address", "You must enter an email address to search for orders.")
    else
      var count := |FilteredOrders(orders, search)|;
      var found := "Found " + (Auth.DecimalString(count) + " orders for \"" + search + "\"");
      var none := "No " + ("orders found for \"" + search + "\"");
      StartsWith("Found ", Auth.DecimalString(count) + " orders for \"" + search + "\"");
      StartsWith("No ", "orders found for \"" + search + "\"");
      Notice(Auth.DecimalString(count) + " Orders Found", if count > 0 then found else none)
  }

  lemma StartsWith(a: string, b: string)
    ensures (a + b)[..|a|] == a
  {
  }

  /** `clearSearch` empties the text, after which every order is shown again. */
  lemma ClearSearchShowsAll(orders: seq<AdminOrder>)
    ensures FilteredOrders(orders, "") == orders
  {
  }
}
