/** The ledger engine of App.tsx: the projection from the contacts and the
    (sorted) transaction list to contacts with a balance and a date of last
    activity, ranked by recency, and the settlement that zeroes a balance. */
module Ledger {
  import opened Types
  import opened Seqs
  import opened Storage

  /** What one transaction does to a balance: CREDIT_GIVEN adds its amount,
      PAYMENT_RECEIVED subtracts it. */
  function Signed(kind: TransactionType, amount: int): (v: int)
    ensures kind == CreditGiven ==> v == amount
    ensures kind == PaymentReceived ==> v == -amount
    ensures amount > 0 ==> (v > 0 <==> kind == CreditGiven)
  {
    if kind == CreditGiven then amount else -amount
  }

  /** `reduce((acc, t) => acc + signed(t), acc)`: a left fold. */
  function Reduce(acc: int, s: seq<Transaction>): int
    decreases |s|
  {
    if s == [] then acc else Reduce(acc + Signed(s[0].kind, s[0].amount), s[1..])
  }

  /** `transactions.filter(t => t.contactId === id)`. */
  function ForContact(txs: seq<Transaction>, id: string): (r: seq<Transaction>)
    ensures IsSubsequence(r, txs)
    ensures forall t :: t in r <==> t in txs && t.contactId == id
    ensures forall t :: multiset(r)[t] == if t.contactId == id then multiset(txs)[t] else 0
  {
    FilterCounts(txs, (t: Transaction) => t.contactId == id);
    Filter(txs, (t: Transaction) => t.contactId == id)
  }

  /** The balance of contact `id` as App.tsx computes it: the credit given
      to it minus the payments received from it. */
  function Balance(id: string, txs: seq<Transaction>): (r: int)
    ensures r == CreditTotal(id, txs) - PaymentTotal(id, txs)
  {
    ReduceAddsUp(0, ForContact(txs, id), id);
    NetOfFilter(id, txs);
    NetIsCreditsMinusPayments(id, txs);
    Reduce(0, ForContact(txs, id))
  }

  // --------------------------------------------- an independent reference

  /** The total amount of credit given to contact `id`. */
  function CreditTotal(id: string, txs: seq<Transaction>): int {
    if txs == [] then 0
    else (if txs[0].contactId == id && txs[0].kind == CreditGiven then txs[0].amount else 0)
         + CreditTotal(id, txs[1..])
  }

  /** The total amount of payments received from contact `id`. */
  function PaymentTotal(id: string, txs: seq<Transaction>): int {
    if txs == [] then 0
    else (if txs[0].contactId == id && txs[0].kind == PaymentReceived then txs[0].amount else 0)
         + PaymentTotal(id, txs[1..])
  }

  /** What transaction `t` contributes to the balance of contact `id`. */
  function Contribution(id: string, t: Transaction): int {
    if t.contactId == id then Signed(t.kind, t.amount) else 0
  }

  /** The sum of the contributions to contact `id`, list order ignored. */
  function Net(id: string, txs: seq<Transaction>): int {
    if txs == [] then 0 else Contribution(id, txs[0]) + Net(id, txs[1..])
  }

  lemma {:induction false} ReduceAddsUp(acc: int, s: seq<Transaction>, id: string)
    requires forall i :: 0 <= i < |s| ==> s[i].contactId == id
    ensures Reduce(acc, s) == acc + Net(id, s)
    decreases |s|
  {
    if s != [] {
      ReduceAddsUp(acc + Signed(s[0].kind, s[0].amount), s[1..], id);
    }
  }

  lemma {:induction false} NetOfFilter(id: string, txs: seq<Transaction>)
    ensures Net(id, ForContact(txs, id)) == Net(id, txs)
  {
    if txs != [] {
      NetOfFilter(id, txs[1..]);
      assert ForContact(txs, id) ==
        (if txs[0].contactId == id then [txs[0]] else []) + ForContact(txs[1..], id);
      if txs[0].contactId == id {
        assert ForContact(txs, id)[1..] == ForContact(txs[1..], id);
      }
    }
  }

  lemma {:induction false} NetIsCreditsMinusPayments(id: string, txs: seq<Transaction>)
    ensures Net(id, txs) == CreditTotal(id, txs) - PaymentTotal(id, txs)
  {
    if txs != [] {
      NetIsCreditsMinusPayments(id, txs[1..]);
    }
  }

  lemma {:induction false} BalanceIsNet(id: string, txs: seq<Transaction>)
    ensures Balance(id, txs) == Net(id, txs)
  {
    ReduceAddsUp(0, ForContact(txs, id), id);
    NetOfFilter(id, txs);
  }

  lemma {:induction false} NetConcat(id: string, a: seq<Transaction>, b: seq<Transaction>)
    ensures Net(id, a + b) == Net(id, a) + Net(id, b)
  {
    if a != [] {
      assert (a + b)[1..] == a[1..] + b;
      NetConcat(id, a[1..], b);
    } else {
      assert a + b == b;
    }
  }

  /** Taking element `k` out of a list takes its contribution out of the net. */
  lemma NetRemove(id: string, t: seq<Transaction>, k: nat)
    requires k < |t|
    ensures Net(id, t) == Contribution(id, t[k]) + Net(id, t[..k] + t[k + 1..])
  {
    var pre, post := t[..k], t[k + 1..];
    assert t == pre + ([t[k]] + post);
    NetConcat(id, pre, [t[k]] + post);
    assert ([t[k]] + post)[1..] == post;
    NetConcat(id, pre, post);
  }

  lemma MultisetRemove<T>(t: seq<T>, k: nat)
    requires k < |t|
    ensures multiset(t) == multiset(t[..k] + t[k + 1..]) + multiset{t[k]}
  {
    assert t == t[..k] + [t[k]] + t[k + 1..];
  }

  /** Matching the head of `s` with an equal element of `t` leaves two
      lists with the same elements. */
  lemma MultisetRemoveMatch<T>(s: seq<T>, t: seq<T>, k: nat)
    requires multiset(s) == multiset(t) && s != []
    requires k < |t| && t[k] == s[0]
    ensures multiset(s[1..]) == multiset(t[..k] + t[k + 1..])
  {
    var x, rest := s[0], t[..k] + t[k + 1..];
    MultisetRemove(t, k);
    assert s == [x] + s[1..];
    assert multiset(s) == multiset(s[1..]) + multiset{x};
    var a, b := multiset(s[1..]), multiset(rest);
    assert a + multiset{x} == b + multiset{x};
    forall y
      ensures a[y] == b[y]
    {
      assert (a + multiset{x})[y] == (b + multiset{x})[y];
    }
  }

  lemma {:induction false} NetPermutation(id: string, s: seq<Transaction>, t: seq<Transaction>)
    requires multiset(s) == multiset(t)
    ensures Net(id, s) == Net(id, t)
    decreases |s|
  {
    if s == [] {
      assert |t| == |multiset(t)| == 0;
    } else {
      assert s[0] in multiset(t);
      var k :| 0 <= k < |t| && t[k] == s[0];
      MultisetRemoveMatch(s, t, k);
      NetPermutation(id, s[1..], t[..k] + t[k + 1..]);
      NetRemove(id, t, k);
    }
  }

  /** The balance does not depend on the order of the transaction list. */
  lemma BalanceIgnoresOrder(id: string, s: seq<Transaction>, t: seq<Transaction>)
    requires multiset(s) == multiset(t)
    ensures Balance(id, s) == Balance(id, t)
  {
    BalanceIsNet(id, s);
    BalanceIsNet(id, t);
    NetPermutation(id, s, t);
  }

  /** Adding one transaction changes only the balance of its own contact, by
      its signed amount. */
  lemma BalanceAfterAdding(id: string, s: seq<Transaction>, t: Transaction)
    ensures Balance(id, [t] + s) == Balance(id, s) + Contribution(id, t)
    ensures Balance(id, s + [t]) == Balance(id, s) + Contribution(id, t)
  {
    BalanceIsNet(id, s);
    BalanceIsNet(id, [t] + s);
    BalanceIsNet(id, s + [t]);
    NetConcat(id, [t], s);
    NetConcat(id, s, [t]);
  }

  // ---------------------------------------------------------- last activity

  /** `contactTx.length > 0 ? contactTx[0].date : undefined`. */
  function LastTransactionDate(id: string, txs: seq<Transaction>): (r: Option<Date>)
    ensures r.None? <==> forall t :: t in txs ==> t.contactId != id
    ensures r.Some? ==> exists t :: t in txs && t.contactId == id && r.value == t.date
  {
    var own := ForContact(txs, id);
    if |own| > 0 then
      assert own[0] in own;
      Some(own[0].date)
    else None
  }

  /** The date of last activity is the date of the contact's first
      transaction in the list, and absent exactly when it has none. */
  lemma ForContactCons(id: string, h: Transaction, rest: seq<Transaction>)
    ensures ForContact([h] + rest, id) == (if h.contactId == id then [h] else []) + ForContact(rest, id)
  {
    assert ([h] + rest)[1..] == rest;
  }

  /** A first match at `i` in `rest` is a first match at `i + 1` once a
      non-matching `h` is put in front. */
  lemma FirstMatchShift(id: string, h: Transaction, rest: seq<Transaction>, i: nat)
    requires h.contactId != id && i < |rest| && rest[i].contactId == id
    requires forall j :: 0 <= j < i ==> rest[j].contactId != id
    ensures ([h] + rest)[i + 1] == rest[i]
    ensures forall j :: 0 <= j < i + 1 ==> ([h] + rest)[j].contactId != id
  {
    var txs := [h] + rest;
    forall j | 0 <= j < i + 1
      ensures txs[j].contactId != id
    {
      if j > 0 { assert txs[j] == rest[j - 1]; }
    }
  }

  lemma {:induction false} LastTransactionDateIsFirstMatch(id: string, txs: seq<Transaction>)
    ensures LastTransactionDate(id, txs).None? <==> forall i :: 0 <= i < |txs| ==> txs[i].contactId != id
    ensures LastTransactionDate(id, txs).Some? ==>
              exists i :: 0 <= i < |txs| && txs[i].contactId == id
                       && LastTransactionDate(id, txs).value == txs[i].date
                       && forall j :: 0 <= j < i ==> txs[j].contactId != id
  {
    if txs != [] {
      var h, rest := txs[0], txs[1..];
      assert txs == [h] + rest;
      ForContactCons(id, h, rest);
      LastTransactionDateIsFirstMatch(id, rest);
      if h.contactId == id {
        assert LastTransactionDate(id, txs) == Some(h.date);
      } else {
        assert LastTransactionDate(id, txs) == LastTransactionDate(id, rest);
        if LastTransactionDate(id, rest).Some? {
          var i :| 0 <= i < |rest| && rest[i].contactId == id
                   && LastTransactionDate(id, rest).value == rest[i].date
                   && forall j :: 0 <= j < i ==> rest[j].contactId != id;
          FirstMatchShift(id, h, rest, i);
        }
      }
    }
  }

  /** On a list in the order `getTransactions` returns, the first
      transaction of a contact carries its most recent date. */
  lemma LastTransactionDateIsMostRecent(id: string, txs: seq<Transaction>)
    requires SortedByRecency(txs)
    requires LastTransactionDate(id, txs).Some?
    ensures forall t :: t in txs && t.contactId == id ==> t.date <= LastTransactionDate(id, txs).value
  {
    LastTransactionDateIsFirstMatch(id, txs);
    var d := LastTransactionDate(id, txs).value;
    var i :| 0 <= i < |txs| && txs[i].contactId == id && d == txs[i].date
             && forall j :: 0 <= j < i ==> txs[j].contactId != id;
    forall t | t in txs && t.contactId == id
      ensures t.date <= d
    {
      var k :| 0 <= k < |txs| && txs[k] == t;
      assert i <= k;
      if i < k { assert Precedes(txs[i], txs[k]); }
    }
  }

  // ---------------------------------------------------------------- ranking

  function WithBalance(c: Contact, txs: seq<Transaction>): ContactWithBalance {
    ContactWithBalance(c, Balance(c.id, txs), LastTransactionDate(c.id, txs))
  }

  /** `contacts.map(...)` before sorting: one entry per contact, in order. */
  function Derive(cs: seq<Contact>, txs: seq<Transaction>): seq<ContactWithBalance> {
    if cs == [] then [] else [WithBalance(cs[0], txs)] + Derive(cs[1..], txs)
  }

  /** `a` may be ranked before `b`: `b` has no activity, or both have and
      `a`'s is no older. */
  predicate RanksBefore(a: ContactWithBalance, b: ContactWithBalance) {
    b.lastTransactionDate.None?
    || (a.lastTransactionDate.Some? && a.lastTransactionDate.value >= b.lastTransactionDate.value)
  }

  predicate RankedByRecency(s: seq<ContactWithBalance>) {
    forall i, j :: 0 <= i < j < |s| ==> RanksBefore(s[i], s[j])
  }

  /** Putting `h` in front of a ranked list keeps it ranked when `h` may be
      ranked before each of its elements. */
  lemma ConsRanked(h: ContactWithBalance, x: ContactWithBalance, tail: seq<ContactWithBalance>,
                   rest: seq<ContactWithBalance>)
    requires RankedByRecency(rest)
    requires multiset(rest) == multiset(tail) + multiset{x}
    requires !RanksBefore(x, h)
    requires forall j :: 0 <= j < |tail| ==> RanksBefore(h, tail[j])
    ensures RankedByRecency([h] + rest)
  {
    forall j | 0 <= j < |rest|
      ensures RanksBefore(h, rest[j])
    {
      assert rest[j] in multiset(rest);
      if rest[j] != x {
        assert rest[j] in multiset(tail);
        var k :| 0 <= k < |tail| && tail[k] == rest[j];
      }
    }
    var r := [h] + rest;
    forall i, j | 0 <= i < j < |r|
      ensures RanksBefore(r[i], r[j])
    {
      if i > 0 { assert r[i] == rest[i - 1] && r[j] == rest[j - 1]; }
      else { assert r[j] == rest[j - 1]; }
    }
  }

  /** An element that may be ranked before the head of a ranked list may
      go in front of it. */
  lemma PrependRanked(x: ContactWithBalance, s: seq<ContactWithBalance>)
    requires RankedByRecency(s) && s != [] && RanksBefore(x, s[0])
    ensures RankedByRecency([x] + s)
  {
    var r := [x] + s;
    forall i, j | 0 <= i < j < |r|
      ensures RanksBefore(r[i], r[j])
    {
      if i > 0 {
        assert r[i] == s[i - 1] && r[j] == s[j - 1];
      } else if j > 1 {
        assert r[j] == s[j - 1] && RanksBefore(s[0], s[j - 1]);
      }
    }
  }

  function InsertRanked(x: ContactWithBalance, s: seq<ContactWithBalance>): (r: seq<ContactWithBalance>)
    requires RankedByRecency(s)
    ensures RankedByRecency(r)
    ensures multiset(r) == multiset(s) + multiset{x}
  {
    if s == [] then [x]
    else if RanksBefore(x, s[0]) then
      PrependRanked(x, s);
      [x] + s
    else
      var rest := InsertRanked(x, s[1..]);
      assert s == [s[0]] + s[1..];
      ConsRanked(s[0], x, s[1..], rest);
      [s[0]] + rest
  }

  /** The sort of App.tsx 79-84: contacts with a recent activity first, those
      without any last. */
  function RankByRecency(s: seq<ContactWithBalance>): (r: seq<ContactWithBalance>)
    ensures RankedByRecency(r)
    ensures multiset(r) == multiset(s)
  {
    if s == [] then []
    else
      assert s == [s[0]] + s[1..];
      InsertRanked(s[0], RankByRecency(s[1..]))
  }

  /** `contactsWithBalances`: every contact with its balance and last
      activity, ranked by recency. */
  function ContactsWithBalances(cs: seq<Contact>, txs: seq<Transaction>): (r: seq<ContactWithBalance>)
    ensures RankedByRecency(r)
    ensures multiset(r) == multiset(seq(|cs|, i requires 0 <= i < |cs| => WithBalance(cs[i], txs)))
  {
    DeriveIsEntries(cs, txs);
    RankByRecency(Derive(cs, txs))
  }

  lemma {:induction false} DeriveEntries(cs: seq<Contact>, txs: seq<Transaction>)
    ensures |Derive(cs, txs)| == |cs|
    ensures forall i :: 0 <= i < |cs| ==> Derive(cs, txs)[i] == WithBalance(cs[i], txs)
  {
    if cs != [] {
      DeriveEntries(cs[1..], txs);
    }
  }

  lemma DeriveIsEntries(cs: seq<Contact>, txs: seq<Transaction>)
    ensures Derive(cs, txs) == seq(|cs|, i requires 0 <= i < |cs| => WithBalance(cs[i], txs))
  {
    DeriveEntries(cs, txs);
  }

  /** The derived list holds one entry per contact, each the contact itself
      with its balance and last activity (as many copies as the contact has
      in `cs`), and in it no contact without
      activity comes before one with activity, and dates never increase. */
  lemma ContactsWithBalancesSpec(cs: seq<Contact>, txs: seq<Transaction>)
    ensures var r := ContactsWithBalances(cs, txs);
      && |r| == |cs|
      && multiset(r) == multiset(seq(|cs|, i requires 0 <= i < |cs| => WithBalance(cs[i], txs)))
      && (forall i :: 0 <= i < |cs| ==> WithBalance(cs[i], txs) in r)
      && (forall e :: e in r ==> e.contact in cs && e == WithBalance(e.contact, txs))
      && (forall i, j :: 0 <= i < j < |r| && r[i].lastTransactionDate.None? ==> r[j].lastTransactionDate.None?)
      && (forall i, j :: 0 <= i < j < |r| && r[j].lastTransactionDate.Some? ==>
            r[i].lastTransactionDate.Some? && r[i].lastTransactionDate.value >= r[j].lastTransactionDate.value)
  {
    var m := seq(|cs|, i requires 0 <= i < |cs| => WithBalance(cs[i], txs));
    var r := ContactsWithBalances(cs, txs);
    assert |r| == |multiset(r)| == |multiset(m)| == |m|;
    forall i | 0 <= i < |cs|
      ensures WithBalance(cs[i], txs) in r
    {
      assert m[i] in multiset(m);
    }
    forall e | e in r
      ensures e.contact in cs && e == WithBalance(e.contact, txs)
    {
      assert e in multiset(m);
      var i :| 0 <= i < |m| && m[i] == e;
      assert cs[i] in cs;
    }
    RankedDates(r);
  }

  /** What a ranked list says about its dates: no undated entry before a
      dated one, and dates never increase. */
  lemma RankedDates(r: seq<ContactWithBalance>)
    requires RankedByRecency(r)
    ensures forall i, j :: 0 <= i < j < |r| && r[i].lastTransactionDate.None? ==> r[j].lastTransactionDate.None?
    ensures forall i, j :: 0 <= i < j < |r| && r[j].lastTransactionDate.Some? ==>
              r[i].lastTransactionDate.Some? && r[i].lastTransactionDate.value >= r[j].lastTransactionDate.value
  {
  }

  // ------------------------------------------------------------- settlement

  /** The transaction type and amount `handleSettle` picks for a balance. */
  datatype SettlementPlan = SettlementPlan(kind: TransactionType, amount: int)

  function Abs(x: int): int {
    if x < 0 then -x else x
  }

  /** `handleSettle`: a payment when the contact owes the user, a credit
      otherwise, always for the absolute balance; applied, it zeroes the
      balance. */
  function Settlement(balance: int): (p: SettlementPlan)
    ensures p.amount == Abs(balance) && p.amount >= 0
    ensures p.kind == PaymentReceived <==> balance > 0
    ensures balance + Signed(p.kind, p.amount) == 0
  {
    SettlementPlan(if balance > 0 then PaymentReceived else CreditGiven, Abs(balance))
  }

  /** Recording the settlement for a contact and recomputing gives balance 0,
      in whatever order the reloaded list comes back. */
  lemma SettleThenRecomputeIsZero(id: string, txs: seq<Transaction>, t: Transaction, reloaded: seq<Transaction>)
    requires t.contactId == id
    requires t.kind == Settlement(Balance(id, txs)).kind
    requires t.amount == Settlement(Balance(id, txs)).amount
    requires multiset(reloaded) == multiset([t] + txs)
    ensures Balance(id, reloaded) == 0
  {
    BalanceAfterAdding(id, txs, t);
    BalanceIgnoresOrder(id, reloaded, [t] + txs);
  }
}
