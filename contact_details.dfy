/** The details screen of components/ContactDetails.tsx: the type filter over
    a contact's transactions, the balance card, the settle button and the
    confirmation step before a delete. */
module ContactDetails {
  import opened Types
  import opened Seqs
  import opened Ledger

  /** The transaction filter: every transaction, or those of one type. */
  datatype TxFilter = AllTx | OnlyTx(kind: TransactionType)

  /** `filteredTransactions`. */
  function FilteredTransactions(ts: seq<Transaction>, filter: TxFilter): (r: seq<Transaction>)
    ensures filter.AllTx? ==> r == ts
    ensures IsSubsequence(r, ts)
    ensures forall t :: t in r <==> t in ts && (filter.AllTx? || t.kind == filter.kind)
    ensures forall t :: multiset(r)[t] == if filter.AllTx? || t.kind == filter.kind then multiset(ts)[t] else 0
  {
    var p := (t: Transaction) => filter.AllTx? || t.kind == filter.kind;
    FilterCounts(ts, p);
    if filter.AllTx? then
      FilterKeepsAll(ts, p);
      Filter(ts, p)
    else Filter(ts, p)
  }

  /** The settle button: shown for a nonzero balance, and it hands on that
      balance. */
  function SettleAction(balance: int): (r: Option<int>)
    ensures r.Some? <==> balance != 0
    ensures r.Some? ==> r.value == balance
  {
    if balance != 0 then Some(balance) else None
  }

  /** The caption under the balance. */
  function BalanceLabel(balance: int): (r: string)
    ensures r == "You will receive" <==> balance >= 0
    ensures r == "You need to pay" <==> balance < 0
  {
    if balance >= 0 then "You will receive" else "You need to pay"
  }

  /** The amount shown on the balance card: the balance without its sign. */
  function DisplayAmount(balance: int): (r: int)
    ensures r >= 0 && (r == balance || r == -balance)
  {
    Abs(balance)
  }

  /** The screen's own state: the filter and whether the delete
      confirmation is open. */
  class DetailsScreen {
    var filter: TxFilter
    var showDeleteConfirm: bool

    constructor ()
      ensures filter == AllTx && !showDeleteConfirm
    {
      filter := AllTx;
      showDeleteConfirm := false;
    }

    method SetFilter(f: TxFilter)
      modifies this
      ensures filter == f && showDeleteConfirm == old(showDeleteConfirm)
    {
      filter := f;
    }

    /** The trash button opens the confirmation. */
    method RequestDelete()
      modifies this
      ensures showDeleteConfirm && filter == old(filter)
    {
      showDeleteConfirm := true;
    }

    /** Cancel, or a click on the backdrop, closes it without deleting. */
    method CancelDelete()
      modifies this
      ensures !showDeleteConfirm && filter == old(filter)
    {
      showDeleteConfirm := false;
    }

    /** The Delete button exists only while the confirmation is open: a
        press reaches `onDelete` exactly then. */
    method PressDelete() returns (deleteCalled: bool)
      ensures deleteCalled <==> showDeleteConfirm
    {
      deleteCalled := showDeleteConfirm;
    }
  }
}
