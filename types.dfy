/** The records and enumerations every part of the ledger app shares
    (types.ts). Identifiers and free text are strings; calendar dates and
    timestamps are the integers `getTime()` yields for them; money amounts
    are integers. */
module Types {

  datatype Option<+T> = None | Some(value: T)

  /** An operation that either yields a value or fails with a message. */
  datatype Result<+T> = Ok(value: T) | Err(error: string)

  /** Milliseconds since the epoch, the value `new Date(...).getTime()` gives. */
  type Date = int

  /** CREDIT_GIVEN: the user gave money or goods (the balance rises);
      PAYMENT_RECEIVED: the user was paid (the balance falls). */
  datatype TransactionType = CreditGiven | PaymentReceived

  datatype ContactType = Customer | Supplier

  datatype User = User(id: string, email: string, name: Option<string>)

  /** A contact belongs to the user whose id is `userId`. */
  datatype Contact = Contact(
    id: string,
    userId: string,
    name: string,
    phone: Option<string>,
    kind: ContactType,
    createdAt: Date)

  datatype TransactionItem = TransactionItem(name: string, quantity: int)

  /** A ledger entry of user `userId` with contact `contactId`. `items` and
      `createdAt` may be absent. */
  datatype Transaction = Transaction(
    id: string,
    userId: string,
    contactId: string,
    amount: int,
    kind: TransactionType,
    description: string,
    items: Option<seq<TransactionItem>>,
    date: Date,
    createdAt: Option<Date>)

  /** The derived view of a contact: the contact's own fields, its balance
      (positive: the contact owes the user; negative: the user owes the
      contact) and the date of its latest transaction, if any. */
  datatype ContactWithBalance = ContactWithBalance(
    contact: Contact,
    balance: int,
    lastTransactionDate: Option<Date>)
}
