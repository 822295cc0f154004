/** The history screen of components/History.tsx: transactions grouped under
    a key computed from their date, and the texts of one row. The date key
    (a locale date string) is a parameter. */
module History {
  import opened Types
  import opened Seqs

  /** `getContactName`: the name of the first contact with that id, unless
      it is empty; 'Unknown' otherwise. */
  function ContactName(cs: seq<Contact>, id: string): (r: string)
    ensures (forall i :: 0 <= i < |cs| ==> cs[i].id != id) ==> r == "Unknown"
    ensures forall i :: 0 <= i < |cs| && cs[i].id == id && (forall j :: 0 <= j < i ==> cs[j].id != id) ==>
              r == (if cs[i].name != "" then cs[i].name else "Unknown")
  {
    match FindIndex(cs, (c: Contact) => c.id == id)
    case None => "Unknown"
    case Some(k) => if cs[k].name != "" then cs[k].name else "Unknown"
  }

  const CreditGivenLabel := "Credit Given"
  const PaymentReceivedLabel := "Payment Received"

  /** The row's second line: the description, or else the type spelled out. */
  function RowSubtitle(t: Transaction): (r: string)
    ensures t.description != "" ==> r == t.description
    ensures t.description == "" ==> (r == CreditGivenLabel <==> t.kind.CreditGiven?)
    ensures t.description == "" ==> (r == PaymentReceivedLabel <==> t.kind.PaymentReceived?)
  {
    if t.description != "" then t.description
    else if t.kind.CreditGiven? then CreditGivenLabel else PaymentReceivedLabel
  }

  /** The transactions of `txs` filed under key `k`, in input order. */
  function GroupOf(txs: seq<Transaction>, dateKey: Date -> string, k: string): seq<Transaction> {
    Filter(txs, (t: Transaction) => dateKey(t.date) == k)
  }

  /** Every key of `r` occurs in `txs` before each occurrence of any key
      listed after it: `r` lists keys in order of first appearance. */
  predicate FirstAppearanceOrder(txs: seq<Transaction>, dateKey: Date -> string, r: seq<string>) {
    forall i, j, q :: 0 <= i < j < |r| && 0 <= q < |txs| && dateKey(txs[q].date) == r[j] ==>
      exists p :: 0 <= p < q && dateKey(txs[p].date) == r[i]
  }

  /** The keys of `txs` in order of first appearance, each once. */
  function GroupKeys(txs: seq<Transaction>, dateKey: Date -> string): (r: seq<string>)
    ensures forall k :: k in r <==> exists t :: t in txs && dateKey(t.date) == k
    ensures forall i, j :: 0 <= i < j < |r| ==> r[i] != r[j]
    ensures |r| == 0 <==> |txs| == 0
  {
    if txs == [] then []
    else
      var init := txs[..|txs| - 1];
      var last := txs[|txs| - 1];
      assert txs == init + [last];
      var ks := GroupKeys(init, dateKey);
      if dateKey(last.date) in ks then ks else ks + [dateKey(last.date)]
  }

  /** A listed key occurs at some index of the input. */
  lemma KeyOccurs(init: seq<Transaction>, dateKey: Date -> string, ks: seq<string>, key: string)
    returns (p: nat)
    requires forall k :: k in ks <==> exists t :: t in init && dateKey(t.date) == k
    requires key in ks
    ensures p < |init| && dateKey(init[p].date) == key
  {
    var t :| t in init && dateKey(t.date) == key;
    p :| 0 <= p < |init| && init[p] == t;
  }

  /** The step of `GroupKeys`' order clause: a key listed before another
      occurs in the input before every occurrence of the later one. */
  lemma KeysFirstAppear(init: seq<Transaction>, last: Transaction, dateKey: Date -> string, ks: seq<string>,
                        txs: seq<Transaction>, k: string, r: seq<string>)
    requires forall k :: k in ks <==> exists t :: t in init && dateKey(t.date) == k
    requires FirstAppearanceOrder(init, dateKey, ks)
    requires txs == init + [last] && k == dateKey(last.date) && r == (if k in ks then ks else ks + [k])
    ensures FirstAppearanceOrder(txs, dateKey, r)
  {
    forall i, j, q | 0 <= i < j < |r| && 0 <= q < |txs| && dateKey(txs[q].date) == r[j]
      ensures exists p :: 0 <= p < q && dateKey(txs[p].date) == r[i]
    {
      if q < |init| {
        assert txs[q] == init[q] && init[q] in init;
        assert j < |ks|;
        var p :| 0 <= p < q && dateKey(init[p].date) == ks[i];
        assert txs[p] == init[p];
      } else {
        var p := KeyOccurs(init, dateKey, ks, r[i]);
        assert txs[p] == init[p];
      }
    }
  }

  /** The keys come in order of first appearance: a key listed before
      another occurs in the input before every occurrence of the later one. */
  lemma {:induction false} GroupKeysInFirstAppearanceOrder(txs: seq<Transaction>, dateKey: Date -> string)
    ensures FirstAppearanceOrder(txs, dateKey, GroupKeys(txs, dateKey))
  {
    if txs != [] {
      var init := txs[..|txs| - 1];
      var last := txs[|txs| - 1];
      assert txs == init + [last];
      var ks := GroupKeys(init, dateKey);
      GroupKeysInFirstAppearanceOrder(init, dateKey);
      var k := dateKey(last.date);
      KeysFirstAppear(init, last, dateKey, ks, txs, k, if k in ks then ks else ks + [k]);
    }
  }

  /** `keys` and `groups` are the grouping of `prefix`: the keys in order
      of first appearance, and under each the transactions that have it. */
  ghost predicate Filed(prefix: seq<Transaction>, dateKey: Date -> string,
                  keys: seq<string>, groups: map<string, seq<Transaction>>) {
    && keys == GroupKeys(prefix, dateKey)
    && (forall k :: k in groups <==> k in keys)
    && (forall k :: k in groups ==> groups[k] == GroupOf(prefix, dateKey, k))
  }

  /** Filing one more transaction adds its key at the end if it is new. */
  lemma GroupKeysStep(prefix: seq<Transaction>, t: Transaction, dateKey: Date -> string)
    ensures var ks := GroupKeys(prefix, dateKey); var k := dateKey(t.date);
      GroupKeys(prefix + [t], dateKey) == if k in ks then ks else ks + [k]
  {
    var s := prefix + [t];
    assert s[..|s| - 1] == prefix && s[|s| - 1] == t;
  }

  /** Filing one more transaction appends it to the group of its key and
      leaves the other groups as they were. */
  lemma GroupOfStep(prefix: seq<Transaction>, t: Transaction, dateKey: Date -> string, k': string)
    ensures GroupOf(prefix + [t], dateKey, k') ==
      if dateKey(t.date) == k' then GroupOf(prefix, dateKey, k') + [t] else GroupOf(prefix, dateKey, k')
  {
    FilterAppend(prefix, t, (u: Transaction) => dateKey(u.date) == k');
  }

  /** Filing one more transaction keeps the groups equal to the filtered
      input and the keys in order of first appearance. */
  lemma GroupStep(prefix: seq<Transaction>, t: Transaction, dateKey: Date -> string,
                  keys: seq<string>, groups: map<string, seq<Transaction>>)
    requires Filed(prefix, dateKey, keys, groups)
    ensures var k := dateKey(t.date);
      Filed(prefix + [t], dateKey,
            if k in groups then keys else keys + [k],
            groups[k := (if k in groups then groups[k] else []) + [t]])
  {
    var k := dateKey(t.date);
    GroupKeysStep(prefix, t, dateKey);
    var groups' := groups[k := (if k in groups then groups[k] else []) + [t]];
    forall k' | k' in groups'
      ensures groups'[k'] == GroupOf(prefix + [t], dateKey, k')
    {
      GroupOfStep(prefix, t, dateKey, k');
      if k' == k && k !in groups {
        if GroupOf(prefix, dateKey, k) != [] {
          assert false;
        }
      }
    }
  }

  /** The grouping loop: one key per distinct date key, in order of first
      appearance, and under each key the transactions that have it. */
  method GroupByDate(txs: seq<Transaction>, dateKey: Date -> string)
    returns (keys: seq<string>, groups: map<string, seq<Transaction>>)
    ensures keys == GroupKeys(txs, dateKey)
    ensures FirstAppearanceOrder(txs, dateKey, keys)
    ensures forall k :: k in groups <==> k in keys
    ensures forall k :: k in groups ==> groups[k] == GroupOf(txs, dateKey, k)
  {
    keys := [];
    groups := map[];
    var i := 0;
    while i < |txs|
      invariant 0 <= i <= |txs|
      invariant Filed(txs[..i], dateKey, keys, groups)
    {
      var t := txs[i];
      GroupStep(txs[..i], t, dateKey, keys, groups);
      assert txs[..i + 1] == txs[..i] + [t];
      var k := dateKey(t.date);
      var known := k in groups;
      keys := if known then keys else keys + [k];
      groups := groups[k := (if known then groups[k] else []) + [t]];
      i := i + 1;
    }
    assert txs[..i] == txs;
    GroupKeysInFirstAppearanceOrder(txs, dateKey);
  }

  /** No transaction is lost or duplicated: each one's copies all sit in the
      group of its own key and in no other. */
  lemma GroupsPartition(txs: seq<Transaction>, dateKey: Date -> string, k: string, t: Transaction)
    ensures multiset(GroupOf(txs, dateKey, k))[t] == if dateKey(t.date) == k then multiset(txs)[t] else 0
  {
    FilterCount(txs, (u: Transaction) => dateKey(u.date) == k, t);
  }
}
