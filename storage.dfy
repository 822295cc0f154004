/** The persistence gateway of services/storage.ts: sign-up, sign-in and the
    session, and the contact and transaction lists, every one scoped by the
    id of the current user.

    The browser's local storage is the object `Store`: its four fields hold
    the four stored lists (users, session, contacts, transactions). Whether a
    remote client was created is decided once, at start-up (`hasClient`).
    Every remote call is a parameter of the operation that makes it: the
    value it came back with, or its failure. A failed remote read or write
    falls through to the same logic on the local lists. */
module Storage {
  import opened Types
  import opened Seqs

  /** The outcome of one remote data call. */
  datatype Remote<+T> = RemoteFailed | RemoteOk(value: T)

  /** The outcome of a remote update or delete, which returns no rows. */
  datatype RemoteWrite = WriteFailed | WriteSucceeded

  /** A user record as the local fallback keeps it, password included. */
  datatype StoredUser = StoredUser(id: string, email: string, password: string, name: string)

  /** A successful sign-up: the user, and whether a session was issued
      (no session means that the address still has to be confirmed). */
  datatype SignUpOk = SignUpOk(user: User, sessionIssued: bool)

  const UserExists := "User with this email already exists"
  const InvalidCredentials := "Invalid email or password"
  const NotAuthenticated := "User not authenticated"

  /** The fields a caller gives for a new contact. */
  datatype ContactDraft = ContactDraft(name: string, phone: Option<string>, kind: ContactType)

  /** The fields of a contact an update may set; `None` leaves a field as it is. */
  datatype ContactUpdate = ContactUpdate(name: Option<string>, phone: Option<string>, kind: Option<ContactType>)

  /** The fields a caller gives for a new transaction. */
  datatype TransactionDraft = TransactionDraft(
    contactId: string,
    amount: int,
    kind: TransactionType,
    description: string,
    items: Option<seq<TransactionItem>>,
    date: Date)

  function NewContact(d: ContactDraft, id: string, userId: string, now: Date): Contact {
    Contact(id, userId, d.name, d.phone, d.kind, now)
  }

  function NewTransaction(d: TransactionDraft, id: string, userId: string, now: Date): Transaction {
    Transaction(id, userId, d.contactId, d.amount, d.kind, d.description, d.items, d.date, Some(now))
  }

  predicate IsEmptyUpdate(u: ContactUpdate) {
    u.name.None? && u.phone.None? && u.kind.None?
  }

  /** `{ ...c, ...updates }`: the given fields replace the contact's own. */
  function Merge(c: Contact, u: ContactUpdate): (r: Contact)
    ensures r.id == c.id && r.userId == c.userId && r.createdAt == c.createdAt
    ensures IsEmptyUpdate(u) ==> r == c
  {
    c.(name := if u.name.Some? then u.name.value else c.name,
       phone := if u.phone.Some? then u.phone else c.phone,
       kind := if u.kind.Some? then u.kind.value else c.kind)
  }

  // ------------------------------------------------------------ list views

  /** The stored contacts of user `userId`, in stored order. */
  function OwnedContacts(cs: seq<Contact>, userId: string): (r: seq<Contact>)
    ensures IsSubsequence(r, cs)
    ensures forall c :: c in r <==> c in cs && c.userId == userId
    ensures forall c :: multiset(r)[c] == if c.userId == userId then multiset(cs)[c] else 0
  {
    FilterCounts(cs, (c: Contact) => c.userId == userId);
    Filter(cs, (c: Contact) => c.userId == userId)
  }

  /** The stored transactions of user `userId`, in stored order. */
  function OwnedTransactions(ts: seq<Transaction>, userId: string): (r: seq<Transaction>)
    ensures IsSubsequence(r, ts)
    ensures forall t :: t in r <==> t in ts && t.userId == userId
    ensures forall t :: multiset(r)[t] == if t.userId == userId then multiset(ts)[t] else 0
  {
    FilterCounts(ts, (t: Transaction) => t.userId == userId);
    Filter(ts, (t: Transaction) => t.userId == userId)
  }

  /** A transaction put first in the stored list is the first of its owner's. */
  lemma OwnedAfterPrepend(t: Transaction, ts: seq<Transaction>)
    ensures OwnedTransactions([t] + ts, t.userId) == [t] + OwnedTransactions(ts, t.userId)
  {
    assert ([t] + ts)[1..] == ts;
  }

  /** A transaction saved locally, after a remote failure or without a
      client, is in what a following `getTransactions` by its owner lists,
      whatever order that list comes in. */
  lemma SavedTransactionIsListed(d: TransactionDraft, newId: string, userId: string, now: Date,
                                 stored: seq<Transaction>, listed: seq<Transaction>)
    requires multiset(listed) == multiset(OwnedTransactions([NewTransaction(d, newId, userId, now)] + stored, userId))
    ensures NewTransaction(d, newId, userId, now) in listed
  {
    var t := NewTransaction(d, newId, userId, now);
    OwnedAfterPrepend(t, stored);
    assert t in multiset(listed);
  }

  /** The cascade of a delete by one user drops another user's transactions
      of that contact id, while that user's contact stays. */
  lemma CascadeIgnoresOwner(cs: seq<Contact>, ts: seq<Transaction>, c: Contact, t: Transaction, deleter: string)
    requires c in cs && t in ts
    requires t.contactId == c.id && c.userId != deleter
    ensures c in WithoutOwnedContact(cs, c.id, deleter)
    ensures t !in WithoutContactTransactions(ts, c.id)
  {
  }

  /** The contact `updateContact(id, updates)` by `userId` may change: the
      first one with that id and that owner. */
  predicate UpdateTarget(c: Contact, id: string, userId: string) {
    c.id == id && c.userId == userId
  }

  /** The local contacts after `updateContact(id, updates)` by `userId`: the
      first contact with that id and owner gets the updates merged in, and
      no other entry changes; without such a contact nothing changes. */
  function UpdateFirstOwned(cs: seq<Contact>, id: string, userId: string, u: ContactUpdate): (r: seq<Contact>)
    ensures |r| == |cs|
    ensures (forall j :: 0 <= j < |cs| ==> !UpdateTarget(cs[j], id, userId)) ==> r == cs
    ensures forall j :: 0 <= j < |cs| && r[j] != cs[j] ==>
              && UpdateTarget(cs[j], id, userId)
              && r[j] == Merge(cs[j], u)
              && forall i :: 0 <= i < j ==> !UpdateTarget(cs[i], id, userId)
    ensures forall j ::
              (0 <= j < |cs| && UpdateTarget(cs[j], id, userId)
               && forall i :: 0 <= i < j ==> !UpdateTarget(cs[i], id, userId))
              ==> r[j] == Merge(cs[j], u)
  {
    match FindIndex(cs, (c: Contact) => UpdateTarget(c, id, userId))
    case None => cs
    case Some(k) => cs[k := Merge(cs[k], u)]
  }

  /** The local transactions after the cascade of deleting contact `contactId`:
      every transaction of that contact goes, whoever owns it; the others
      stay, in order. */
  function WithoutContactTransactions(ts: seq<Transaction>, contactId: string): (r: seq<Transaction>)
    ensures IsSubsequence(r, ts)
    ensures forall t :: t in r <==> t in ts && t.contactId != contactId
    ensures forall t :: multiset(r)[t] == if t.contactId != contactId then multiset(ts)[t] else 0
  {
    FilterCounts(ts, (t: Transaction) => t.contactId != contactId);
    Filter(ts, (t: Transaction) => t.contactId != contactId)
  }

  /** The local contacts after deleting contact `contactId` as `userId`: only
      a contact with that id that `userId` owns goes; the others stay, in
      order. */
  function WithoutOwnedContact(cs: seq<Contact>, contactId: string, userId: string): (r: seq<Contact>)
    ensures IsSubsequence(r, cs)
    ensures forall c :: c in r <==> c in cs && !(c.id == contactId && c.userId == userId)
    ensures forall c :: multiset(r)[c] == if c.id == contactId && c.userId == userId then 0 else multiset(cs)[c]
  {
    FilterCounts(cs, (c: Contact) => !(c.id == contactId && c.userId == userId));
    Filter(cs, (c: Contact) => !(c.id == contactId && c.userId == userId))
  }

  // -------------------------------------------------------------- ordering

  /** A missing `createdAt` counts as time 0. */
  function CreatedKey(t: Transaction): Date {
    if t.createdAt.Some? then t.createdAt.value else 0
  }

  /** `a` may be listed before `b`: a later date, or the same date and an
      insertion time no earlier. */
  predicate Precedes(a: Transaction, b: Transaction) {
    a.date > b.date || (a.date == b.date && CreatedKey(a) >= CreatedKey(b))
  }

  /** The order `getTransactions` promises: date descending, then `createdAt`
      descending. */
  predicate SortedByRecency(s: seq<Transaction>) {
    forall i, j :: 0 <= i < j < |s| ==> Precedes(s[i], s[j])
  }

  lemma PrecedesIsTotalPreorder(a: Transaction, b: Transaction, c: Transaction)
    ensures Precedes(a, b) || Precedes(b, a)
    ensures Precedes(a, b) && Precedes(b, c) ==> Precedes(a, c)
  {
  }

  /** Within `s[..i+1]`, every pair not involving position `j` is in order. */
  predicate SortedExcept(s: seq<Transaction>, i: nat, j: nat)
    requires i < |s|
  {
    forall p, q :: 0 <= p < q <= i && p != j && q != j ==> Precedes(s[p], s[q])
  }

  /** The element at `j` may precede everything after it up to position `i`. */
  predicate LeadsUpTo(s: seq<Transaction>, i: nat, j: nat)
    requires j <= i < |s|
  {
    forall q :: j < q <= i ==> Precedes(s[j], s[q])
  }

  /** One swap of the insertion step moves the misplaced element one place
      towards the front and keeps both facts. */
  lemma SwapStep(s: seq<Transaction>, i: nat, j: nat)
    requires 0 < j <= i < |s|
    requires SortedExcept(s, i, j) && LeadsUpTo(s, i, j)
    requires !Precedes(s[j - 1], s[j])
    ensures var t := s[j - 1 := s[j]][j := s[j - 1]];
      SortedExcept(t, i, j - 1) && LeadsUpTo(t, i, j - 1) && multiset(t) == multiset(s)
  {
    var t := s[j - 1 := s[j]][j := s[j - 1]];
    PrecedesIsTotalPreorder(s[j - 1], s[j], s[j]);
    forall q | j - 1 < q <= i
      ensures Precedes(t[j - 1], t[q])
    {
    }
    assert t == s[..j - 1] + [s[j], s[j - 1]] + s[j + 1..];
    assert s == s[..j - 1] + [s[j - 1], s[j]] + s[j + 1..];
  }

  /** When the misplaced element has stopped, the prefix is sorted. */
  lemma InsertionDone(s: seq<Transaction>, i: nat, j: nat)
    requires j <= i < |s|
    requires SortedExcept(s, i, j) && LeadsUpTo(s, i, j)
    requires j == 0 || Precedes(s[j - 1], s[j])
    ensures SortedByRecency(s[..i + 1])
  {
    forall p, q | 0 <= p < q <= i
      ensures Precedes(s[p], s[q])
    {
      if q == j && p < j - 1 {
        PrecedesIsTotalPreorder(s[p], s[j - 1], s[j]);
      }
    }
  }

  /** Moves `a[i]` back into place within the sorted prefix `a[..i]`. */
  method InsertIntoSorted(a: array<Transaction>, i: nat)
    requires i < a.Length && SortedByRecency(a[..i])
    modifies a
    ensures SortedByRecency(a[..i + 1])
    ensures multiset(a[..]) == old(multiset(a[..]))
    ensures a[i + 1..] == old(a[i + 1..])
  {
    var j := i;
    while j > 0 && !Precedes(a[j - 1], a[j])
      invariant 0 <= j <= i
      invariant SortedExcept(a[..], i, j) && LeadsUpTo(a[..], i, j)
      invariant multiset(a[..]) == old(multiset(a[..]))
      invariant a[i + 1..] == old(a[i + 1..])
    {
      SwapStep(a[..], i, j);
      a[j - 1], a[j] := a[j], a[j - 1];
      j := j - 1;
    }
    InsertionDone(a[..], i, j);
  }

  /** The comparator of `getTransactions` applied by an in-place insertion
      sort, which is stable like `Array.prototype.sort`. */
  method SortByRecency(a: array<Transaction>)
    modifies a
    ensures SortedByRecency(a[..])
    ensures multiset(a[..]) == old(multiset(a[..]))
  {
    var i := 0;
    while i < a.Length
      invariant 0 <= i <= a.Length
      invariant SortedByRecency(a[..i])
      invariant multiset(a[..]) == old(multiset(a[..]))
    {
      InsertIntoSorted(a, i);
      i := i + 1;
    }
    assert a[..a.Length] == a[..];
  }

  /** The browser's local storage, plus the start-up choice of backend. */
  class Store {
    /** Whether the remote client was created at start-up. */
    const hasClient: bool
    var users: seq<StoredUser>
    var session: Option<User>
    var contacts: seq<Contact>
    var transactions: seq<Transaction>

    constructor (hasClient: bool, users: seq<StoredUser>, session: Option<User>,
                 contacts: seq<Contact>, transactions: seq<Transaction>)
      ensures this.hasClient == hasClient && this.users == users && this.session == session
      ensures this.contacts == contacts && this.transactions == transactions
    {
      this.hasClient := hasClient;
      this.users := users;
      this.session := session;
      this.contacts := contacts;
      this.transactions := transactions;
    }

    /** The user `getCurrentUser` reports: the remote session's user when the
        client exists and has one, else the locally stored session. */
    function CurrentUser(remoteSession: Option<User>): Option<User>
      reads this
    {
      if hasClient && remoteSession.Some? then remoteSession else session
    }

    /** A data call ends up on the local lists: there is no client, or the
        remote call failed. */
    predicate FallsBack<T>(remote: Remote<T>)
      reads this
    {
      !hasClient || remote.RemoteFailed?
    }

    /** The contacts `getContacts` answers with. */
    function ContactsView(remoteSession: Option<User>, remote: Remote<seq<Contact>>): seq<Contact>
      reads this
    {
      match CurrentUser(remoteSession)
      case None => []
      case Some(user) => if FallsBack(remote) then OwnedContacts(contacts, user.id) else remote.value
    }

    /** The transactions `getTransactions` sorts before answering. */
    function TransactionsView(remoteSession: Option<User>, remote: Remote<seq<Transaction>>): seq<Transaction>
      reads this
    {
      match CurrentUser(remoteSession)
      case None => []
      case Some(user) => if FallsBack(remote) then OwnedTransactions(transactions, user.id) else remote.value
    }

    /** What the local `signUp` answers: a taken email is refused, else the
        new user with a session. */
    function SignUpResult(email: string, newId: string, password: string, name: string): (r: Result<SignUpOk>)
      reads this
      ensures r.Err? <==> exists i :: 0 <= i < |users| && users[i].email == email
      ensures r.Err? ==> r.error == UserExists
      ensures r.Ok? ==> r.value == SignUpOk(User(newId, email, Some(name)), true)
    {
      if FindIndex(users, (u: StoredUser) => u.email == email).Some? then Err(UserExists)
      else Ok(SignUpOk(User(newId, email, Some(name)), true))
    }

    /** What the local `signIn` answers: the first user with that email and
        password, or a refusal. */
    function SignInResult(email: string, password: string): (r: Result<User>)
      reads this
      ensures r.Err? <==> forall i :: 0 <= i < |users| ==> !(users[i].email == email && users[i].password == password)
      ensures r.Err? ==> r.error == InvalidCredentials
      ensures r.Ok? ==> exists i :: 0 <= i < |users| && users[i].email == email && users[i].password == password
                                  && r.value == User(users[i].id, users[i].email, Some(users[i].name))
    ensures forall i :: 0 <= i < |users| && users[i].email == email && users[i].password == password
                        && (forall j :: 0 <= j < i ==> !(users[j].email == email && users[j].password == password)) ==>
              r == Ok(User(users[i].id, users[i].email, Some(users[i].name)))
    {
      match FindIndex(users, (u: StoredUser) => u.email == email && u.password == password)
      case None => Err(InvalidCredentials)
      case Some(k) => Ok(User(users[k].id, users[k].email, Some(users[k].name)))
    }

    method GetCurrentUser(remoteSession: Option<User>) returns (u: Option<User>)
      ensures hasClient && remoteSession.Some? ==> u == remoteSession
      ensures !hasClient || remoteSession.None? ==> u == session
    {
      u := CurrentUser(remoteSession);
    }

    /** `signUp`. With a client the remote answer is passed through (its
        errors and exceptions already turned into messages). Locally, a
        taken email is refused; otherwise the user is stored and signed in. */
    method SignUp(email: string, password: string, name: string, newId: string,
                  remote: Result<SignUpOk>) returns (r: Result<SignUpOk>)
      modifies this
      ensures contacts == old(contacts) && transactions == old(transactions)
      ensures hasClient ==> r == remote && users == old(users) && session == old(session)
      ensures !hasClient ==> r == old(SignUpResult(email, newId, password, name))
      ensures !hasClient && (exists i :: 0 <= i < |old(users)| && old(users)[i].email == email) ==>
                r == Err(UserExists) && users == old(users) && session == old(session)
      ensures !hasClient && (forall i :: 0 <= i < |old(users)| ==> old(users)[i].email != email) ==>
                var u := User(newId, email, Some(name));
                && users == old(users) + [StoredUser(newId, email, password, name)]
                && session == Some(u)
                && r == Ok(SignUpOk(u, true))
    {
      if hasClient {
        r := remote;
        return;
      }
      if FindIndex(users, (u: StoredUser) => u.email == email).Some? {
        r := Err(UserExists);
        return;
      }
      users := users + [StoredUser(newId, email, password, name)];
      var u := User(newId, email, Some(name));
      session := Some(u);
      r := Ok(SignUpOk(u, true));
    }

    /** `signIn`. With a client the remote answer is passed through. Locally,
        the first user with that email and password becomes the session. */
    method SignIn(email: string, password: string, remote: Result<User>) returns (r: Result<User>)
      modifies this
      ensures users == old(users) && contacts == old(contacts) && transactions == old(transactions)
      ensures hasClient ==> r == remote && session == old(session)
      ensures !hasClient ==> r == SignInResult(email, password)
      ensures !hasClient && (forall i :: 0 <= i < |users| ==> !(users[i].email == email && users[i].password == password)) ==>
                r == Err(InvalidCredentials) && session == old(session)
      ensures !hasClient && r.Ok? ==>
                session == Some(r.value)
                && exists i :: 0 <= i < |users| && users[i].email == email && users[i].password == password
                              && r.value == User(users[i].id, users[i].email, Some(users[i].name))
    {
      if hasClient {
        r := remote;
        return;
      }
      match FindIndex(users, (u: StoredUser) => u.email == email && u.password == password)
      case None =>
        r := Err(InvalidCredentials);
      case Some(k) =>
        var u := User(users[k].id, users[k].email, Some(users[k].name));
        session := Some(u);
        r := Ok(u);
    }

    /** `signOut`: the remote sign-out first, then the local session is
        removed. A rejected remote call ends the operation before that. */
    method SignOut(remoteRejects: bool) returns (completed: bool)
      modifies this
      ensures users == old(users) && contacts == old(contacts) && transactions == old(transactions)
      ensures completed <==> !(hasClient && remoteRejects)
      ensures completed ==> session == None
      ensures !completed ==> session == old(session)
    {
      if hasClient && remoteRejects {
        return false;
      }
      session := None;
      return true;
    }

    /** `getContacts`: nothing without a user; the remote rows when the remote
        read succeeds; otherwise the stored contacts of the current user. */
    method GetContacts(remoteSession: Option<User>, remote: Remote<seq<Contact>>) returns (r: seq<Contact>)
      ensures r == ContactsView(remoteSession, remote)
      ensures CurrentUser(remoteSession).None? ==> r == []
      ensures CurrentUser(remoteSession).Some? && !FallsBack(remote) ==> r == remote.value
      ensures CurrentUser(remoteSession).Some? && FallsBack(remote) ==>
                var uid := CurrentUser(remoteSession).value.id;
                && IsSubsequence(r, contacts)
                && (forall c :: c in r <==> c in contacts && c.userId == uid)
    {
      var user := GetCurrentUser(remoteSession);
      if user.None? {
        return [];
      }
      if hasClient && remote.RemoteOk? {
        return remote.value;
      }
      r := OwnedContacts(contacts, user.value.id);
    }

    /** `saveContact`: refused without a user; otherwise a contact with the
        fresh id `newId`, the current user as owner and creation time `now`
        is written, remotely or, failing that, appended locally. */
    method SaveContact(draft: ContactDraft, newId: string, now: Date,
                       remoteSession: Option<User>, remote: Remote<Contact>) returns (r: Result<Contact>)
      modifies this
      ensures users == old(users) && session == old(session) && transactions == old(transactions)
      ensures CurrentUser(remoteSession).None? ==> r == Err(NotAuthenticated) && contacts == old(contacts)
      ensures CurrentUser(remoteSession).Some? && !FallsBack(remote) ==>
                r == Ok(remote.value) && contacts == old(contacts)
      ensures CurrentUser(remoteSession).Some? && FallsBack(remote) ==>
                var c := NewContact(draft, newId, CurrentUser(remoteSession).value.id, now);
                r == Ok(c) && contacts == old(contacts) + [c]
    {
      var user := GetCurrentUser(remoteSession);
      if user.None? {
        return Err(NotAuthenticated);
      }
      var c := NewContact(draft, newId, user.value.id, now);
      if hasClient && remote.RemoteOk? {
        return Ok(remote.value);
      }
      contacts := contacts + [c];
      r := Ok(c);
    }

    /** `updateContact`: a no-op without a user. With a client, an update that
        sets no field returns at once, and a successful remote update leaves
        local storage alone; otherwise the first local contact with that id
        and the current user as owner gets the updates. */
    method UpdateContact(id: string, updates: ContactUpdate,
                         remoteSession: Option<User>, remote: RemoteWrite)
      modifies this
      ensures users == old(users) && session == old(session) && transactions == old(transactions)
      ensures CurrentUser(remoteSession).None? ==> contacts == old(contacts)
      ensures hasClient && (IsEmptyUpdate(updates) || remote == WriteSucceeded) ==> contacts == old(contacts)
      ensures CurrentUser(remoteSession).Some? && (!hasClient || (!IsEmptyUpdate(updates) && remote == WriteFailed)) ==>
                contacts == UpdateFirstOwned(old(contacts), id, CurrentUser(remoteSession).value.id, updates)
    {
      var user := GetCurrentUser(remoteSession);
      if user.None? {
        return;
      }
      if hasClient {
        if IsEmptyUpdate(updates) || remote == WriteSucceeded {
          return;
        }
      }
      var uid := user.value.id;
      match FindIndex(contacts, (c: Contact) => UpdateTarget(c, id, uid))
      case None =>
      case Some(k) =>
        contacts := contacts[k := Merge(contacts[k], updates)];
    }

    /** `deleteContact`: a no-op without a user; a successful remote delete
        removes only the remote contact row; otherwise `FallbackDelete`. */
    method DeleteContact(contactId: string, remoteSession: Option<User>, remote: RemoteWrite)
      modifies this
      ensures users == old(users) && session == old(session)
      ensures CurrentUser(remoteSession).None? || (hasClient && remote == WriteSucceeded) ==>
                contacts == old(contacts) && transactions == old(transactions)
      ensures CurrentUser(remoteSession).Some? && (!hasClient || remote == WriteFailed) ==>
                && transactions == WithoutContactTransactions(old(transactions), contactId)
                && contacts == WithoutOwnedContact(old(contacts), contactId, CurrentUser(remoteSession).value.id)
    {
      var user := GetCurrentUser(remoteSession);
      if user.None? {
        return;
      }
      if hasClient && remote == WriteSucceeded {
        return;
      }
      FallbackDelete(contactId, user.value.id);
    }

    /** `fallbackDelete`: drops every local transaction of the contact, then
        the contact itself if `userId` owns it. */
    method FallbackDelete(contactId: string, userId: string)
      modifies this
      ensures users == old(users) && session == old(session)
      ensures transactions == WithoutContactTransactions(old(transactions), contactId)
      ensures contacts == WithoutOwnedContact(old(contacts), contactId, userId)
    {
      transactions := WithoutContactTransactions(transactions, contactId);
      contacts := WithoutOwnedContact(contacts, contactId, userId);
    }

    /** `getTransactions`: nothing without a user; otherwise the remote rows,
        or failing that the current user's stored transactions, sorted by
        date and then insertion time, most recent first. */
    method GetTransactions(remoteSession: Option<User>, remote: Remote<seq<Transaction>>) returns (r: seq<Transaction>)
      ensures CurrentUser(remoteSession).None? ==> r == []
      ensures SortedByRecency(r) && multiset(r) == multiset(TransactionsView(remoteSession, remote))
      ensures CurrentUser(remoteSession).Some? && !FallsBack(remote) ==> multiset(r) == multiset(remote.value)
      ensures CurrentUser(remoteSession).Some? && FallsBack(remote) ==>
                multiset(r) == multiset(OwnedTransactions(transactions, CurrentUser(remoteSession).value.id))
    {
      var user := GetCurrentUser(remoteSession);
      if user.None? {
        return [];
      }
      var loaded: seq<Transaction>;
      if hasClient && remote.RemoteOk? {
        loaded := remote.value;
      } else {
        loaded := OwnedTransactions(transactions, user.value.id);
      }
      var a := new Transaction[|loaded|](i requires 0 <= i < |loaded| => loaded[i]);
      assert a[..] == loaded;
      SortByRecency(a);
      r := a[..];
    }

    /** `saveTransaction`: refused without a user; otherwise a transaction
        with the fresh id `newId`, the current user as owner and `createdAt`
        = `now` is written, remotely or, failing that, put first in the local
        list. */
    method SaveTransaction(draft: TransactionDraft, newId: string, now: Date,
                           remoteSession: Option<User>, remote: Remote<Transaction>) returns (r: Result<Transaction>)
      modifies this
      ensures users == old(users) && session == old(session) && contacts == old(contacts)
      ensures CurrentUser(remoteSession).None? ==> r == Err(NotAuthenticated) && transactions == old(transactions)
      ensures CurrentUser(remoteSession).Some? && !FallsBack(remote) ==>
                r == Ok(remote.value) && transactions == old(transactions)
      ensures CurrentUser(remoteSession).Some? && FallsBack(remote) ==>
                var t := NewTransaction(draft, newId, CurrentUser(remoteSession).value.id, now);
                r == Ok(t) && transactions == [t] + old(transactions)
    {
      var user := GetCurrentUser(remoteSession);
      if user.None? {
        return Err(NotAuthenticated);
      }
      var t := NewTransaction(draft, newId, user.value.id, now);
      if hasClient && remote.RemoteOk? {
        return Ok(remote.value);
      }
      transactions := [t] + transactions;
      r := Ok(t);
    }
  }
}
