/** The dashboard of components/Dashboard.tsx: the search and type filter
    over the ranked contacts, and the two summary totals. */
module Dashboard {
  import opened Types
  import opened Seqs
  import opened Text

  /** The type filter: every contact, or those of one type. */
  datatype TypeFilter = All | Only(kind: ContactType)

  /** The search term occurs in the lower-cased name, or, case kept, in a
      phone number that is present and not empty. */
  predicate MatchesSearch(c: ContactWithBalance, term: string) {
    Contains(Lower(c.contact.name), Lower(term))
    || (c.contact.phone.Some? && c.contact.phone.value != "" && Contains(c.contact.phone.value, term))
  }

  predicate MatchesType(c: ContactWithBalance, filter: TypeFilter) {
    filter.All? || c.contact.kind == filter.kind
  }

  /** `filteredContacts`: the contacts that match both the search and the
      type filter, in the order given. */
  function FilteredContacts(cs: seq<ContactWithBalance>, term: string, filter: TypeFilter): (r: seq<ContactWithBalance>)
    ensures IsSubsequence(r, cs)
    ensures forall c :: c in r <==> c in cs && MatchesSearch(c, term) && MatchesType(c, filter)
    ensures forall c :: multiset(r)[c] == if MatchesSearch(c, term) && MatchesType(c, filter) then multiset(cs)[c] else 0
  {
    FilterCounts(cs, (c: ContactWithBalance) => MatchesSearch(c, term) && MatchesType(c, filter));
    Filter(cs, (c: ContactWithBalance) => MatchesSearch(c, term) && MatchesType(c, filter))
  }

  /** With no search term and no type filter every contact is listed. */
  lemma EmptySearchKeepsAll(cs: seq<ContactWithBalance>)
    ensures FilteredContacts(cs, "", All) == cs
  {
    var p := (c: ContactWithBalance) => MatchesSearch(c, "") && MatchesType(c, All);
    forall i | 0 <= i < |cs|
      ensures p(cs[i])
    {
      ContainsEmpty(Lower(cs[i].contact.name));
    }
    FilterKeepsAll(cs, p);
  }

  function PositivePart(b: int): int {
    if b > 0 then b else 0
  }

  function NegativePart(b: int): int {
    if b < 0 then -b else 0
  }

  /** `totalReceivable`: what all contacts owe the user together. */
  function TotalReceivable(cs: seq<ContactWithBalance>): (r: int)
    ensures r >= 0
    ensures r == 0 <==> forall i :: 0 <= i < |cs| ==> cs[i].balance <= 0
  {
    if cs == [] then 0 else PositivePart(cs[0].balance) + TotalReceivable(cs[1..])
  }

  /** `totalPayable`: what the user owes all contacts together. */
  function TotalPayable(cs: seq<ContactWithBalance>): (r: int)
    ensures r >= 0
    ensures r == 0 <==> forall i :: 0 <= i < |cs| ==> cs[i].balance >= 0
  {
    if cs == [] then 0 else NegativePart(cs[0].balance) + TotalPayable(cs[1..])
  }

  function SumOfBalances(cs: seq<ContactWithBalance>): int {
    if cs == [] then 0 else cs[0].balance + SumOfBalances(cs[1..])
  }

  /** The two cards together show the sum of all balances. */
  lemma {:induction false} NetPosition(cs: seq<ContactWithBalance>)
    ensures TotalReceivable(cs) - TotalPayable(cs) == SumOfBalances(cs)
  {
    if cs != [] {
      NetPosition(cs[1..]);
    }
  }

  /** `getFilterLabel`. */
  function FilterLabel(filter: TypeFilter): (r: string)
    ensures r == "All" <==> filter.All?
    ensures r == "Customers" <==> filter == Only(Customer)
    ensures r == "Suppliers" <==> filter == Only(Supplier)
  {
    match filter
    case All => "All"
    case Only(Customer) => "Customers"
    case Only(Supplier) => "Suppliers"
  }
}
