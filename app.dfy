/** The top-level controller of App.tsx: the screen and modal state, the
    app's loaded copies of the contact and transaction lists, and the
    handlers that call the store and then reload those copies. */
module App {
  import opened Types
  import opened Seqs
  import opened Text
  import opened Storage
  import opened Ledger
  import opened AddEntry

  /** `ViewState`. */
  datatype View = AuthView | DashboardView | AddContactView | HistoryView | ContactDetailsView | AddTransactionView

  /** The outcome of the remote calls `refreshData` makes: the session the
      store sees and the two remote reads. */
  datatype Backend = Backend(
    session: Option<User>,
    contactsRead: Remote<seq<Contact>>,
    transactionsRead: Remote<seq<Transaction>>)

  class AppController {
    const store: Store
    var isAuthenticated: bool
    var showWelcome: bool
    var currentView: View
    var contacts: seq<Contact>
    var transactions: seq<Transaction>
    var selectedContactId: Option<string>
    var showAddTransactionModal: bool
    var txModalType: TransactionType
    var showEditContactModal: bool
    var initialTxAmount: Option<int>

    /** The state the app starts in. */
    constructor (store: Store)
      ensures this.store == store
      ensures !isAuthenticated && showWelcome && currentView == DashboardView
      ensures contacts == [] && transactions == [] && selectedContactId == None
      ensures !showAddTransactionModal && txModalType == CreditGiven
      ensures !showEditContactModal && initialTxAmount == None
    {
      this.store := store;
      isAuthenticated := false;
      showWelcome := true;
      currentView := DashboardView;
      contacts := [];
      transactions := [];
      selectedContactId := None;
      showAddTransactionModal := false;
      txModalType := CreditGiven;
      showEditContactModal := false;
      initialTxAmount := None;
    }

    /** `if (!selectedContactId)` fails: an id is selected and not empty. */
    predicate HasSelection()
      reads this
    {
      selectedContactId.Some? && selectedContactId.value != ""
    }

    /** `selectedContactTransactions`. */
    function SelectedTransactions(): (r: seq<Transaction>)
      reads this
      ensures selectedContactId.None? ==> r == []
      ensures IsSubsequence(r, transactions)
      ensures forall t :: t in r <==> t in transactions && Some(t.contactId) == selectedContactId
      ensures forall t :: multiset(r)[t] == if Some(t.contactId) == selectedContactId then multiset(transactions)[t] else 0
    {
      if selectedContactId.None? then [] else ForContact(transactions, selectedContactId.value)
    }

    /** The loaded copies are what the store answers with for `env`. */
    predicate Refreshed(env: Backend)
      reads this, store
    {
      && contacts == store.ContactsView(env.session, env.contactsRead)
      && SortedByRecency(transactions)
      && multiset(transactions) == multiset(store.TransactionsView(env.session, env.transactionsRead))
    }

    /** `refreshData`: reload both lists from the store. */
    method RefreshData(env: Backend)
      modifies this
      ensures Refreshed(env)
      ensures isAuthenticated == old(isAuthenticated) && showWelcome == old(showWelcome)
      ensures currentView == old(currentView) && selectedContactId == old(selectedContactId)
      ensures showAddTransactionModal == old(showAddTransactionModal) && txModalType == old(txModalType)
      ensures showEditContactModal == old(showEditContactModal) && initialTxAmount == old(initialTxAmount)
    {
      var c := store.GetContacts(env.session, env.contactsRead);
      var t := store.GetTransactions(env.session, env.transactionsRead);
      contacts := c;
      transactions := t;
    }

    /** `handleLogin`: the user is in. */
    method HandleLogin()
      modifies this
      ensures isAuthenticated
      ensures showWelcome == old(showWelcome) && currentView == old(currentView)
      ensures contacts == old(contacts) && transactions == old(transactions)
      ensures selectedContactId == old(selectedContactId)
      ensures showAddTransactionModal == old(showAddTransactionModal) && txModalType == old(txModalType)
      ensures showEditContactModal == old(showEditContactModal) && initialTxAmount == old(initialTxAmount)
    {
      isAuthenticated := true;
    }

    /** `handleLogout`: sign out, then back to the welcome screen. A rejected
        remote sign-out ends the handler before any of its state changes. */
    method HandleLogout(remoteRejects: bool)
      modifies this, store
      ensures store.users == old(store.users) && store.contacts == old(store.contacts)
      ensures store.transactions == old(store.transactions)
      ensures store.hasClient && remoteRejects ==> unchanged(this) && store.session == old(store.session)
      ensures !(store.hasClient && remoteRejects) ==>
                && store.session == None
                && !isAuthenticated && currentView == DashboardView
                && selectedContactId == None && showWelcome
                && contacts == old(contacts) && transactions == old(transactions)
                && showAddTransactionModal == old(showAddTransactionModal) && txModalType == old(txModalType)
                && showEditContactModal == old(showEditContactModal) && initialTxAmount == old(initialTxAmount)
    {
      var completed := store.SignOut(remoteRejects);
      if !completed {
        return;
      }
      isAuthenticated := false;
      currentView := DashboardView;
      selectedContactId := None;
      showWelcome := true;
    }

    /** `handleSelectContact`. */
    method HandleSelectContact(c: ContactWithBalance)
      modifies this
      ensures selectedContactId == Some(c.contact.id) && currentView == ContactDetailsView
      ensures isAuthenticated == old(isAuthenticated) && showWelcome == old(showWelcome)
      ensures contacts == old(contacts) && transactions == old(transactions)
      ensures showAddTransactionModal == old(showAddTransactionModal) && txModalType == old(txModalType)
      ensures showEditContactModal == old(showEditContactModal) && initialTxAmount == old(initialTxAmount)
    {
      selectedContactId := Some(c.contact.id);
      currentView := ContactDetailsView;
    }

    /** The navigation callback: leaving the details screen drops the
        selection. */
    method ChangeView(view: View)
      modifies this
      ensures currentView == view
      ensures selectedContactId == if view == ContactDetailsView then old(selectedContactId) else None
      ensures isAuthenticated == old(isAuthenticated) && showWelcome == old(showWelcome)
      ensures contacts == old(contacts) && transactions == old(transactions)
      ensures showAddTransactionModal == old(showAddTransactionModal) && txModalType == old(txModalType)
      ensures showEditContactModal == old(showEditContactModal) && initialTxAmount == old(initialTxAmount)
    {
      currentView := view;
      if view != ContactDetailsView {
        selectedContactId := None;
      }
    }

    /** The add-transaction callback of the details screen: a plain entry of
        the chosen type, with no prefilled amount. */
    method OpenAddTransaction(kind: TransactionType)
      modifies this
      ensures txModalType == kind && initialTxAmount == None && showAddTransactionModal
      ensures isAuthenticated == old(isAuthenticated) && showWelcome == old(showWelcome)
      ensures currentView == old(currentView) && selectedContactId == old(selectedContactId)
      ensures contacts == old(contacts) && transactions == old(transactions)
      ensures showEditContactModal == old(showEditContactModal)
    {
      txModalType := kind;
      initialTxAmount := None;
      showAddTransactionModal := true;
    }

    /** `handleSettle`: open the entry form with the type and amount that
        zero `balance`. */
    method HandleSettle(balance: int)
      modifies this
      ensures txModalType == Settlement(balance).kind
      ensures initialTxAmount == Some(Settlement(balance).amount)
      ensures showAddTransactionModal
      ensures isAuthenticated == old(isAuthenticated) && showWelcome == old(showWelcome)
      ensures currentView == old(currentView) && selectedContactId == old(selectedContactId)
      ensures contacts == old(contacts) && transactions == old(transactions)
      ensures showEditContactModal == old(showEditContactModal)
    {
      if balance > 0 {
        txModalType := PaymentReceived;
      } else {
        txModalType := CreditGiven;
      }
      initialTxAmount := Some(Abs(balance));
      showAddTransactionModal := true;
    }

    /** `handleSaveTransaction`: nothing without a selected contact;
        otherwise a transaction for the selected contact, of the modal's
        type, is saved; a refused save (no user) changes nothing, a
        successful one closes the modal and reloads. */
    method HandleSaveTransaction(amount: int, description: string, date: Date, items: seq<TransactionItem>,
                                 newId: string, now: Date, env: Backend, write: Remote<Transaction>)
      modifies this, store
      ensures !old(HasSelection()) || store.CurrentUser(env.session).None? ==>
                unchanged(this) && store.transactions == old(store.transactions)
      ensures store.users == old(store.users) && store.session == old(store.session)
      ensures store.contacts == old(store.contacts)
      ensures old(HasSelection()) && store.CurrentUser(env.session).Some? ==>
                var draft := TransactionDraft(old(selectedContactId).value, amount, old(txModalType),
                                              description, Some(items), date);
                var t := NewTransaction(draft, newId, store.CurrentUser(env.session).value.id, now);
                && store.transactions == (if store.FallsBack(write) then [t] + old(store.transactions)
                                          else old(store.transactions))
                && !showAddTransactionModal && initialTxAmount == None
                && Refreshed(env)
                && selectedContactId == old(selectedContactId) && txModalType == old(txModalType)
                && currentView == old(currentView) && showEditContactModal == old(showEditContactModal)
                && isAuthenticated == old(isAuthenticated) && showWelcome == old(showWelcome)
    {
      if !HasSelection() {
        return;
      }
      var draft := TransactionDraft(selectedContactId.value, amount, txModalType, description, Some(items), date);
      var r := store.SaveTransaction(draft, newId, now, env.session, write);
      if r.Err? {
        return;
      }
      showAddTransactionModal := false;
      initialTxAmount := None;
      RefreshData(env);
    }

    /** `handleSaveContact`: with the edit modal open and a contact
        selected, the selected contact gets all three fields; otherwise a
        new contact is saved and the dashboard shown. */
    method HandleSaveContact(name: string, phone: string, kind: ContactType, newId: string, now: Date,
                             env: Backend, created: Remote<Contact>, updated: RemoteWrite)
      modifies this, store
      ensures store.users == old(store.users) && store.session == old(store.session)
      ensures store.transactions == old(store.transactions)
      ensures old(showEditContactModal && HasSelection()) ==>
                var upd := ContactUpdate(Some(name), Some(phone), Some(kind));
                && store.contacts ==
                     (if store.CurrentUser(env.session).Some? && (!store.hasClient || updated == WriteFailed)
                      then UpdateFirstOwned(old(store.contacts), old(selectedContactId).value,
                                            store.CurrentUser(env.session).value.id, upd)
                      else old(store.contacts))
                && !showEditContactModal && currentView == old(currentView)
                && Refreshed(env)
      ensures !old(showEditContactModal && HasSelection()) && store.CurrentUser(env.session).None? ==>
                unchanged(this) && store.contacts == old(store.contacts)
      ensures !old(showEditContactModal && HasSelection()) && store.CurrentUser(env.session).Some? ==>
                var c := NewContact(ContactDraft(name, Some(phone), kind), newId,
                                    store.CurrentUser(env.session).value.id, now);
                && store.contacts == (if store.FallsBack(created) then old(store.contacts) + [c]
                                      else old(store.contacts))
                && currentView == DashboardView && showEditContactModal == old(showEditContactModal)
                && Refreshed(env)
      ensures selectedContactId == old(selectedContactId) && isAuthenticated == old(isAuthenticated)
      ensures showAddTransactionModal == old(showAddTransactionModal) && txModalType == old(txModalType)
      ensures initialTxAmount == old(initialTxAmount) && showWelcome == old(showWelcome)
    {
      if showEditContactModal && HasSelection() {
        store.UpdateContact(selectedContactId.value, ContactUpdate(Some(name), Some(phone), Some(kind)),
                            env.session, updated);
        showEditContactModal := false;
      } else {
        var r := store.SaveContact(ContactDraft(name, Some(phone), kind), newId, now, env.session, created);
        if r.Err? {
          return;
        }
        currentView := DashboardView;
      }
      RefreshData(env);
    }

    /** `handleDeleteContact`: nothing without a selected contact; otherwise
        the store deletes it, the selection is dropped, the dashboard shown
        and the lists reloaded. */
    method HandleDeleteContact(env: Backend, write: RemoteWrite)
      modifies this, store
      ensures !old(HasSelection()) ==>
                unchanged(this) && store.contacts == old(store.contacts) && store.transactions == old(store.transactions)
      ensures store.users == old(store.users) && store.session == old(store.session)
      ensures old(HasSelection()) ==>
                var id := old(selectedContactId).value;
                && (if store.CurrentUser(env.session).Some? && (!store.hasClient || write == WriteFailed)
                    then && store.transactions == WithoutContactTransactions(old(store.transactions), id)
                         && store.contacts == WithoutOwnedContact(old(store.contacts), id,
                                                                  store.CurrentUser(env.session).value.id)
                    else store.contacts == old(store.contacts) && store.transactions == old(store.transactions))
                && selectedContactId == None && currentView == DashboardView
                && Refreshed(env)
                && isAuthenticated == old(isAuthenticated) && showWelcome == old(showWelcome)
                && showAddTransactionModal == old(showAddTransactionModal) && txModalType == old(txModalType)
                && showEditContactModal == old(showEditContactModal) && initialTxAmount == old(initialTxAmount)
    {
      if !HasSelection() {
        return;
      }
      store.DeleteContact(selectedContactId.value, env.session, write);
      selectedContactId := None;
      currentView := DashboardView;
      RefreshData(env);
    }
  }

  /** The whole settle flow: the details screen offers to settle a nonzero
      balance, `handleSettle` opens the form with its type and amount, the
      form reads that amount back from its text, the store puts the new
      transaction first, and the reloaded list, in any order, gives the
      contact a balance of 0. */
  lemma SettleFlowZeroesBalance(stored: seq<Transaction>, userId: string, loaded: seq<Transaction>,
                                contactId: string, draft: TransactionDraft, newId: string, now: Date,
                                reloaded: seq<Transaction>)
    requires multiset(loaded) == multiset(OwnedTransactions(stored, userId))
    requires Balance(contactId, loaded) != 0
    requires var plan := Settlement(Balance(contactId, loaded));
      && draft.contactId == contactId && draft.kind == plan.kind
      && Some(draft.amount) == ParseInt(InitialAmountText(Some(plan.amount)))
    requires multiset(reloaded) == multiset(OwnedTransactions([NewTransaction(draft, newId, userId, now)] + stored, userId))
    ensures Balance(contactId, reloaded) == 0
  {
    var plan := Settlement(Balance(contactId, loaded));
    assert IsTruthy(Some(plan.amount));
    var t := NewTransaction(draft, newId, userId, now);
    OwnedAfterPrepend(t, stored);
    assert multiset(reloaded) == multiset([t] + loaded) by {
      calc {
        multiset(reloaded);
        multiset([t] + OwnedTransactions(stored, userId));
        multiset([t]) + multiset(OwnedTransactions(stored, userId));
        multiset([t]) + multiset(loaded);
        multiset([t] + loaded);
      }
    }
    SettleThenRecomputeIsZero(contactId, loaded, t, reloaded);
  }
}
