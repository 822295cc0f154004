/** The entry form of components/AddEntry.tsx, used both for a new or edited
    contact and for a new transaction: its initial state, the item list of a
    credit entry, and what a submit hands on to the app. */
module AddEntry {
  import opened Types
  import opened Text

  datatype Mode = ContactMode | TransactionMode

  /** What an edit passes in to prefill the contact fields. */
  datatype InitialContact = InitialContact(name: string, phone: string, kind: Option<ContactType>)

  /** What a submit does: nothing, or one call of the matching save callback.
      The amount is the number read from the amount field (`None`: not a
      number). */
  datatype Submission =
    | NoSave
    | SaveContactCall(name: string, phone: string, kind: ContactType)
    | SaveTransactionCall(amount: Option<int>, description: string, date: Date, items: seq<TransactionItem>)

  /** `initialAmount` is truthy: present and not zero. */
  predicate IsTruthy(initialAmount: Option<int>) {
    initialAmount.Some? && initialAmount.value != 0
  }

  /** The amount field's first text: the given amount written out, if any. */
  function InitialAmountText(initialAmount: Option<int>): (r: string)
    ensures r == [] <==> !IsTruthy(initialAmount)
    ensures IsTruthy(initialAmount) ==> ParseInt(r) == Some(initialAmount.value)
  {
    if IsTruthy(initialAmount) then
      ParseIntToString(initialAmount.value, []);
      assert IntToString(initialAmount.value) + [] == IntToString(initialAmount.value);
      IntToString(initialAmount.value)
    else []
  }

  /** The description field's first text: a prefilled amount is a settlement. */
  function InitialDescription(initialAmount: Option<int>): (r: string)
    ensures IsTruthy(initialAmount) <==> r == "Full Settlement"
    ensures !IsTruthy(initialAmount) ==> r == ""
  {
    if IsTruthy(initialAmount) then "Full Settlement" else ""
  }

  /** The item builder is shown for a credit entry that is not a settlement. */
  function ShowItemsBuilder(mode: Mode, transactionType: Option<TransactionType>,
                            initialAmount: Option<int>): (r: bool)
    ensures IsTruthy(initialAmount) ==> !r
    ensures mode == ContactMode || transactionType != Some(CreditGiven) ==> !r
    ensures mode == TransactionMode && transactionType == Some(CreditGiven) && !IsTruthy(initialAmount) ==> r
  {
    mode == TransactionMode && transactionType == Some(CreditGiven) && !IsTruthy(initialAmount)
  }

  /** `parseInt(itemQty) || 1`: the quantity typed, unless it is not a number
      or zero, in which case 1. */
  function ItemQuantity(qtyText: string): (q: int)
    ensures q != 0
    ensures ParseInt(qtyText).Some? && ParseInt(qtyText).value != 0 ==> q == ParseInt(qtyText).value
    ensures ParseInt(qtyText) == None || ParseInt(qtyText) == Some(0) ==> q == 1
  {
    match ParseInt(qtyText)
    case Some(v) => if v != 0 then v else 1
    case None => 1
  }

  /** `items.filter((_, i) => i !== index)`. */
  function DropIndex<T>(s: seq<T>, index: int): (r: seq<T>)
    ensures 0 <= index < |s| ==> r == s[..index] + s[index + 1..]
    ensures !(0 <= index < |s|) ==> r == s
  {
    if s == [] then []
    else if index == 0 then s[1..]
    else
      var rest := DropIndex(s[1..], index - 1);
      assert 0 < index < |s| ==> s[1..][..index - 1] == s[1..index] && s[1..][index..] == s[index + 1..];
      assert 0 < index < |s| ==> [s[0]] + s[1..index] == s[..index];
      [s[0]] + rest
  }

  /** The description a transaction is saved with: a credit with items and
      no description of its own is described by its item count. */
  function FinalDescription(transactionType: Option<TransactionType>, desc: string,
                            items: seq<TransactionItem>): (r: string)
    ensures transactionType == Some(CreditGiven) && desc == "" && |items| > 0 ==>
              r == IntToString(|items|) + " Items" && ParseInt(r) == Some(|items|)
    ensures !(transactionType == Some(CreditGiven) && desc == "" && |items| > 0) ==> r == desc
  {
    if transactionType == Some(CreditGiven) && desc == "" && |items| > 0 then
      ParseIntToString(|items|, " Items");
      IntToString(|items|) + " Items"
    else desc
  }

  class EntryForm {
    const mode: Mode
    const transactionType: Option<TransactionType>
    const initialAmount: Option<int>
    var name: string
    var phone: string
    var cType: ContactType
    var amount: string
    var desc: string
    var date: Date
    var items: seq<TransactionItem>
    var itemName: string
    var itemQty: string

    /** The form as it opens: contact fields from `initial` when editing,
        the amount and description from a settlement amount, today's date,
        an empty item list and a quantity of 1. */
    constructor (mode: Mode, transactionType: Option<TransactionType>, initial: Option<InitialContact>,
                 initialAmount: Option<int>, today: Date)
      ensures this.mode == mode && this.transactionType == transactionType
      ensures this.initialAmount == initialAmount
      ensures name == (if initial.Some? then initial.value.name else "")
      ensures phone == (if initial.Some? then initial.value.phone else "")
      ensures cType == (if initial.Some? && initial.value.kind.Some? then initial.value.kind.value else Customer)
      ensures amount == InitialAmountText(initialAmount) && desc == InitialDescription(initialAmount)
      ensures date == today && items == [] && itemName == "" && itemQty == "1"
    {
      this.mode := mode;
      this.transactionType := transactionType;
      this.initialAmount := initialAmount;
      name := if initial.Some? then initial.value.name else "";
      phone := if initial.Some? then initial.value.phone else "";
      cType := if initial.Some? && initial.value.kind.Some? then initial.value.kind.value else Customer;
      amount := InitialAmountText(initialAmount);
      desc := InitialDescription(initialAmount);
      date := today;
      items := [];
      itemName := "";
      itemQty := "1";
    }

    /** `handleAddItem`: a blank name adds nothing; otherwise one item goes at
        the end and the item fields are reset. */
    method HandleAddItem()
      modifies this
      ensures IsBlank(old(itemName)) ==> unchanged(this)
      ensures !IsBlank(old(itemName)) ==>
                && items == old(items) + [TransactionItem(old(itemName), ItemQuantity(old(itemQty)))]
                && itemName == "" && itemQty == "1"
      ensures name == old(name) && phone == old(phone) && cType == old(cType)
      ensures amount == old(amount) && desc == old(desc) && date == old(date)
    {
      if IsBlank(itemName) {
        return;
      }
      items := items + [TransactionItem(itemName, ItemQuantity(itemQty))];
      itemName := "";
      itemQty := "1";
    }

    /** `handleRemoveItem(index)`: the item at `index` goes, the others keep
        their order. */
    method HandleRemoveItem(index: int)
      modifies this
      ensures items == DropIndex(old(items), index)
      ensures name == old(name) && phone == old(phone) && cType == old(cType)
      ensures amount == old(amount) && desc == old(desc) && date == old(date)
      ensures itemName == old(itemName) && itemQty == old(itemQty)
    {
      items := DropIndex(items, index);
    }

    /** `handleSubmit`: an empty name or an empty amount saves nothing;
        otherwise the fields are handed on, the item list included whatever
        the transaction type. */
    function Submit(): (s: Submission)
      reads this
      ensures mode == ContactMode ==>
                (s.NoSave? <==> name == "") && (name != "" ==> s == SaveContactCall(name, phone, cType))
      ensures mode == TransactionMode ==>
                && (s.NoSave? <==> amount == "")
                && (amount != "" ==>
                      && s.SaveTransactionCall?
                      && s.amount == ParseInt(amount)
                      && s.items == items && s.date == date
                      && s.description == FinalDescription(transactionType, desc, items))
    {
      match mode
      case ContactMode => if name == "" then NoSave else SaveContactCall(name, phone, cType)
      case TransactionMode =>
        if amount == "" then NoSave
        else SaveTransactionCall(ParseInt(amount), FinalDescription(transactionType, desc, items), date, items)
    }
  }
}
