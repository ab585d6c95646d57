/** The bank (Bank.cpp): the customer directory, account creation, lookups,
    the transfer protocol and the monthly maintenance sweep. */
module Banking {
  import opened Wrappers
  import opened Seqs
  import opened Ids
  import opened Logging
  import opened Transactions
  import opened Accounts
  import opened Customers

  /** Position of the first customer with the given id. */
  function CustomerIndex(cs: seq<Customer>, customerId: string): Option<nat>
  {
    FirstIndex(cs, (c: Customer) => c.id == customerId)
  }

  /** The customer getCustomer returns: the first one with that id. */
  function CustomerWithId(cs: seq<Customer>, customerId: string): (r: Option<Customer>)
    ensures r.Some? ==> r.value in cs && r.value.id == customerId
    ensures r.None? <==> forall k :: 0 <= k < |cs| ==> cs[k].id != customerId
  {
    match CustomerIndex(cs, customerId)
    case None => None
    case Some(k) => Some(cs[k])
  }

  /** The customer getCustomerByName returns: the first one with that name. */
  function CustomerWithName(cs: seq<Customer>, name: string): (r: Option<Customer>)
    ensures r.Some? ==> r.value in cs && r.value.name == name
    ensures r.None? <==> forall k :: 0 <= k < |cs| ==> cs[k].name != name
  {
    match FirstIndex(cs, (c: Customer) => c.name == name)
    case None => None
    case Some(k) => Some(cs[k])
  }

  /** The account getAccount returns: customers are searched in order, each
      by Customer::getAccount, and the first hit wins. */
  function FindInDirectory(lists: seq<seq<Account>>, accountNumber: string): (r: Option<Account>)
    ensures r.Some? ==> r.value.number == accountNumber
    ensures r.Some? ==> exists i, j :: 0 <= i < |lists| && 0 <= j < |lists[i]| && lists[i][j] == r.value
    ensures r.None? <==> forall i, j :: 0 <= i < |lists| && 0 <= j < |lists[i]| ==> lists[i][j].number != accountNumber
  {
    if lists == [] then None
    else match AccountWithNumber(lists[0], accountNumber)
      case Some(a) => Some(a)
      case None =>
        var r := FindInDirectory(lists[1..], accountNumber);
        assert forall i, j :: 1 <= i < |lists| && 0 <= j < |lists[i]| ==> lists[i][j] == lists[1..][i - 1][j];
        r
  }

  /** The counter value that numbered the j-th account of the i-th customer. */
  ghost function SerialAt(lists: seq<seq<Account>>, i: nat, j: nat): (serial: nat)
    requires i < |lists| && j < |lists[i]|
    ensures serial == lists[i][j].serial
  {
    lists[i][j].serial
  }

  /** No two accounts of the directory were numbered from the same counter value. */
  ghost predicate SerialsDistinct(lists: seq<seq<Account>>)
  {
    forall i1: nat, j1: nat, i2: nat, j2: nat ::
      (i1 < |lists| && j1 < |lists[i1]| &&
       i2 < |lists| && j2 < |lists[i2]| &&
       (i1 != i2 || j1 != j2)) ==> SerialAt(lists, i1, j1) != SerialAt(lists, i2, j2)
  }

  /** Every account number is "ACC" followed by its counter value. */
  ghost predicate NumbersFromSerials(lists: seq<seq<Account>>)
  {
    forall i, j :: 0 <= i < |lists| && 0 <= j < |lists[i]| ==> lists[i][j].number == AccountNumberFor(lists[i][j].serial)
  }

  /** An account numbered above every existing one keeps the serials
      distinct wherever it is appended. */
  lemma SerialsDistinctAppend(lists: seq<seq<Account>>, k: nat, acc: Account)
    requires SerialsDistinct(lists) && k < |lists|
    requires forall i, j :: 0 <= i < |lists| && 0 <= j < |lists[i]| ==> lists[i][j].serial < acc.serial
    ensures SerialsDistinct(lists[k := lists[k] + [acc]])
  {
    var lists': seq<seq<Account>> := lists[k := lists[k] + [acc]];
    forall i1: int, j1: int, i2: int, j2: int |
      0 <= i1 < |lists'| && 0 <= j1 < |lists'[i1]| &&
      0 <= i2 < |lists'| && 0 <= j2 < |lists'[i2]| &&
      (i1 != i2 || j1 != j2)
      ensures SerialAt(lists', i1, j1) != SerialAt(lists', i2, j2)
    {
      var new1 := i1 == k && j1 == |lists[k]|;
      var new2 := i2 == k && j2 == |lists[k]|;
      if !new1 { assert lists'[i1][j1] == lists[i1][j1]; }
      if !new2 { assert lists'[i2][j2] == lists[i2][j2]; }
      if !new1 && !new2 { assert SerialAt(lists, i1, j1) != SerialAt(lists, i2, j2); }
    }
  }

  /** A new customer's empty list adds no account, so the serials stay
      distinct. */
  lemma EmptyListKeepsSerials(lists: seq<seq<Account>>)
    requires SerialsDistinct(lists)
    ensures SerialsDistinct(lists + [[]])
  {
    var grown := lists + [[]];
    assert forall i :: 0 <= i < |lists| ==> grown[i] == lists[i];
    forall i1: nat, j1: nat, i2: nat, j2: nat |
      i1 < |grown| && j1 < |grown[i1]| && i2 < |grown| && j2 < |grown[i2]| && (i1 != i2 || j1 != j2)
      ensures SerialAt(grown, i1, j1) != SerialAt(grown, i2, j2)
    {
      assert SerialAt(lists, i1, j1) != SerialAt(lists, i2, j2);
    }
  }

  /** Distinct counter values make distinct account objects. */
  lemma SerialsDistinctObjects(lists: seq<seq<Account>>)
    requires SerialsDistinct(lists)
    ensures NestedDistinct(lists)
  {
    forall i1, j1, i2, j2 |
      0 <= i1 < |lists| && 0 <= j1 < |lists[i1]| &&
      0 <= i2 < |lists| && 0 <= j2 < |lists[i2]| && (i1 != i2 || j1 != j2)
      ensures lists[i1][j1] != lists[i2][j2]
    {
      assert SerialAt(lists, i1, j1) != SerialAt(lists, i2, j2);
    }
  }

  /** Two accounts of the directory never share a number. */
  lemma DirectoryNumbersUnique(lists: seq<seq<Account>>, i1: nat, j1: nat, i2: nat, j2: nat)
    requires SerialsDistinct(lists) && NumbersFromSerials(lists)
    requires i1 < |lists| && j1 < |lists[i1]| && i2 < |lists| && j2 < |lists[i2]|
    requires i1 != i2 || j1 != j2
    ensures lists[i1][j1].number != lists[i2][j2].number
  {
    assert SerialAt(lists, i1, j1) != SerialAt(lists, i2, j2);
    AccountNumbersDistinct(lists[i1][j1].serial, lists[i2][j2].serial);
  }

  /** Since numbers are unique, looking up an account's own number finds
      exactly that account. */
  lemma LookupFindsEveryAccount(lists: seq<seq<Account>>, i: nat, j: nat)
    requires SerialsDistinct(lists) && NumbersFromSerials(lists)
    requires i < |lists| && j < |lists[i]|
    ensures FindInDirectory(lists, lists[i][j].number) == Some(lists[i][j])
  {
    var r := FindInDirectory(lists, lists[i][j].number);
    var i', j' :| 0 <= i' < |lists| && 0 <= j' < |lists[i']| && lists[i'][j'] == r.value;
    if i' != i || j' != j {
      DirectoryNumbersUnique(lists, i, j, i', j');
    }
  }

  /** Searching customer by customer finds the same account as searching
      the customer-then-account listing that getAllAccounts returns. */
  lemma {:induction false} DirectorySearchOrder(lists: seq<seq<Account>>, accountNumber: string)
    ensures FindInDirectory(lists, accountNumber) == AccountWithNumber(Flatten(lists), accountNumber)
  {
    if lists != [] {
      DirectorySearchOrder(lists[1..], accountNumber);
      FlattenCons(lists);
      AccountWithNumberConcat(lists[0], Flatten(lists[1..]), accountNumber);
    }
  }

  lemma AccountWithNumberConcat(a: seq<Account>, b: seq<Account>, accountNumber: string)
    ensures AccountWithNumber(a + b, accountNumber)
         == if AccountWithNumber(a, accountNumber).Some? then AccountWithNumber(a, accountNumber)
            else AccountWithNumber(b, accountNumber)
  {
    var p := (x: Account) => x.number == accountNumber;
    match FirstIndex(a, p)
    case Some(k) =>
      FirstIndexUnique(a + b, p, k);
    case None =>
      match FirstIndex(b, p)
      case Some(k) =>
        FirstIndexUnique(a + b, p, |a| + k);
      case None =>
        assert forall k :: 0 <= k < |a + b| ==> !p((a + b)[k]);
  }

  /** An account of the directory sits at exactly one position of the
      customer-then-account listing. */
  lemma Locate(lists: seq<seq<Account>>, a: Account) returns (p: nat, i: nat, j: nat)
    requires SerialsDistinct(lists) && a in Flatten(lists)
    ensures i < |lists| && j < |lists[i]| && lists[i][j] == a
    ensures p < |Flatten(lists)| && Flatten(lists)[p] == a
    ensures forall p' :: 0 <= p' < |Flatten(lists)| && p' != p ==> Flatten(lists)[p'] != a
  {
    p :| 0 <= p < |Flatten(lists)| && Flatten(lists)[p] == a;
    i, j := FlattenCover(lists, p);
    SerialsDistinctObjects(lists);
    FlattenDistinct(lists);
  }

  /** What getAccount finds is one of the listed accounts. */
  lemma FoundIsListed(lists: seq<seq<Account>>, accountNumber: string)
    ensures FindInDirectory(lists, accountNumber).Some? ==> FindInDirectory(lists, accountNumber).value in Flatten(lists)
  {
    var r := FindInDirectory(lists, accountNumber);
    if r.Some? {
      FlattenMembership(lists, r.value);
    }
  }

  /** The message of an account creation refused for an unknown customer. */
  function CreationFailedEvent(kind: Kind, customerId: string): Event
  {
    match kind
    case Savings(_) => SavingsCreationFailed(customerId)
    case Checking(_) => CheckingCreationFailed(customerId)
  }

  /** The description a transfer gives each side: "Transfer to <to>" or
      "Transfer from <from>", then ": <description>" when there is one. */
  function TransferNote(prefix: string, other: string, description: string): (note: string)
    ensures prefix + other <= note
    ensures note == prefix + other <==> description == ""
  {
    prefix + other + (if description == "" then "" else ": " + description)
  }

  /** The withdrawal record a transfer leaves on its source. */
  function TransferOut(id: nat, fromNumber: string, toNumber: string, amount: real, description: string): (t: Transaction)
    ensures Net([t]) == -amount
  {
    var t := Transaction(id, Withdrawal, amount, fromNumber, TransferNote("Transfer to ", toNumber, description));
    NetAppend([], t);
    assert [] + [t] == [t];
    t
  }

  /** The deposit record a transfer leaves on its destination. */
  function TransferIn(id: nat, fromNumber: string, toNumber: string, amount: real, description: string): (t: Transaction)
    ensures Net([t]) == amount
  {
    var t := Transaction(id, TransactionType.Deposit, amount, toNumber, TransferNote("Transfer from ", fromNumber, description));
    NetAppend([], t);
    assert [] + [t] == [t];
    t
  }

  /** The message transferFunds refuses with, given what the two lookups
      found: a WARNING for a non-positive amount, then an ERROR for an
      unknown source, then an ERROR for an unknown destination; none when
      the transfer goes ahead. */
  function TransferRefusal(amount: real, fromNumber: string, toNumber: string, from: Option<Account>, to: Option<Account>)
    : (r: Option<Message>)
    ensures r.None? <==> amount > 0.0 && from.Some? && to.Some?
  {
    if amount <= 0.0 then Some(Message(Warning, TransferInvalidAmount(amount)))
    else if from.None? then Some(Message(Error, SourceNotFound(fromNumber)))
    else if to.None? then Some(Message(Error, DestinationNotFound(toNumber)))
    else None
  }

  /** A transfer as the ledger lemmas see it: amount taken from source and
      given to target (the same account when the two numbers coincide). */
  datatype Move = Move(source: Account, target: Account, amount: real)

  /** A point of the maintenance sweep: the account at this position of the
      listing, against the balances and histories snapshotted before the
      sweep. */
  datatype SweepPoint = SweepPoint(account: Account, position: nat, balances: seq<real>, histories: seq<seq<Transaction>>)

  /** Where the log and the four counters stood when the maintenance sweep
      began. */
  datatype LogMark = LogMark(entries: seq<LogEntry>, nextLogEntry: nat, nextTransaction: nat, nextAccount: nat, nextCustomer: nat)

  /** The messages the maintenance sweep logs for the accounts before
      position k of the listing, in listing order, each for the balance it
      held when the sweep began. */
  ghost function SweepMessages(all: seq<Account>, balances: seq<real>, k: nat): seq<Message>
    requires k <= |all| && |balances| == |all|
  {
    if k == 0 then []
    else SweepMessages(all, balances, k - 1) + MaintenanceMessages(all[k - 1].kind, all[k - 1].number, balances[k - 1])
  }

  /** How many of the accounts before position k earn positive interest,
      each drawing one transaction id. */
  ghost function InterestCount(all: seq<Account>, balances: seq<real>, k: nat): nat
    requires k <= |all| && |balances| == |all|
  {
    if k == 0 then 0
    else InterestCount(all, balances, k - 1) + if MonthlyGain(all[k - 1].kind, balances[k - 1]) > 0.0 then 1 else 0
  }

  /** The sweep's messages are every account's maintenance messages, each
      account once and in listing order: read from the start, they show the
      messages of the accounts before p and then those of the account at p. */
  lemma {:induction false} SweepMessagesInOrder(all: seq<Account>, balances: seq<real>, p: nat, k: nat)
    requires p < k <= |all| && |balances| == |all|
    ensures SweepMessages(all, balances, p) + MaintenanceMessages(all[p].kind, all[p].number, balances[p])
            <= SweepMessages(all, balances, k)
  {
    if k > p + 1 {
      SweepMessagesInOrder(all, balances, p, k - 1);
    }
  }

  /** The last element of a non-empty sequence. */
  function Last<T>(s: seq<T>): T
    requires s != []
  {
    s[|s| - 1]
  }

  /** The balances of the listed accounts, in order. */
  function BalancesOf(accs: seq<Account>): (r: seq<real>)
    reads accs
    ensures |r| == |accs| && forall p :: 0 <= p < |accs| ==> r[p] == accs[p].balance
  {
    seq(|accs|, p requires 0 <= p < |accs| reads accs => accs[p].balance)
  }

  /** The histories of the listed accounts, in order. */
  function HistoriesOf(accs: seq<Account>): (r: seq<seq<Transaction>>)
    reads accs
    ensures |r| == |accs| && forall p :: 0 <= p < |accs| ==> r[p] == accs[p].history
  {
    seq(|accs|, p requires 0 <= p < |accs| reads accs => accs[p].history)
  }

  /** The account at position p of the listing changed as maintenance
      changes it, from the snapshot's balance and history. */
  ghost predicate Swept(all: seq<Account>, p: nat, balances: seq<real>, histories: seq<seq<Transaction>>)
    requires p < |all| && |balances| == |all| && |histories| == |all|
    reads all[p]
  {
    MaintenanceEffect(all[p].kind, all[p].number, balances[p], histories[p], all[p].balance, all[p].history)
  }

  /** The account at position p of the listing still holds the snapshot's
      balance and history. */
  ghost predicate Untouched(all: seq<Account>, p: nat, balances: seq<real>, histories: seq<seq<Transaction>>)
    requires p < |all| && |balances| == |all| && |histories| == |all|
    reads all[p]
  {
    all[p].balance == balances[p] && all[p].history == histories[p]
  }

  class Bank {
    const name: string
    /** The process-wide counters and log the source reaches through static
        members and DataManager::getInstance(); one object each, shared by
        every call. */
    const ids: IdGenerator
    const log: EventLog
    var customers: seq<Customer>
    /** lists[i] mirrors customers[i].accounts. */
    ghost var lists: seq<seq<Account>>
    ghost var Repr: set<object>

    /** The bank's invariant: every customer and account is owned once, ids
        were drawn from the counters and never reused, every account is owned
        by the customer holding it and keeps its ledger identity. */
    ghost predicate Valid()
      reads this, Repr, ids, log
    {
      && DirectoryShape()
      && CustomersNumbered()
      && AccountsSound()
      && AccountsOwned()
      && SerialsDistinct(lists)
      && log.Valid(ids.nextLogEntry)
    }

    /** Every account the bank holds is numbered from its own serial, as
        each account's ledger identity says. */
    lemma NumbersFollowSerials()
      requires Valid()
      ensures NumbersFromSerials(lists)
    {
      forall i, j | 0 <= i < |lists| && 0 <= j < |lists[i]|
        ensures lists[i][j].number == AccountNumberFor(lists[i][j].serial)
      {
        assert lists[i][j] in Repr;
      }
    }

    /** lists mirrors the customers' account lists, and Repr holds every
        customer and account. */
    ghost predicate DirectoryShape()
      reads this, Repr
    {
      && this !in Repr
      && |lists| == |customers|
      && (forall i :: 0 <= i < |customers| ==> customers[i] in Repr)
      && (forall i :: 0 <= i < |customers| && customers[i] in Repr ==> customers[i].accounts == lists[i])
      && (forall i, j :: 0 <= i < |lists| && 0 <= j < |lists[i]| ==> lists[i][j] in Repr)
    }

    /** The counter value that numbered the i-th customer. */
    static ghost function CustomerSerial(cs: seq<Customer>, i: nat): (serial: nat)
      requires i < |cs|
      ensures serial == cs[i].serial
    {
      cs[i].serial
    }

    /** Customer ids were drawn from the customer counter, once each. */
    ghost predicate CustomersNumbered()
      reads this, ids
    {
      && (forall i :: 0 <= i < |customers| ==>
            customers[i].serial < ids.nextCustomer && customers[i].id == CustomerIdFor(customers[i].serial))
      && (forall i: nat, j: nat :: i < j < |customers| ==> CustomerSerial(customers, i) != CustomerSerial(customers, j))
    }

    /** Every account keeps its ledger identity and its history numbering. */
    ghost predicate AccountsSound()
      reads this, Repr, ids
    {
      forall i, j :: 0 <= i < |lists| && 0 <= j < |lists[i]| && lists[i][j] in Repr ==>
        lists[i][j].Valid() && IdsIncreasing(lists[i][j].history, ids.nextTransaction)
    }

    /** Every account belongs to the customer holding it, and its number was
        drawn from the account counter. */
    ghost predicate AccountsOwned()
      reads this, ids
    {
      forall i, j :: 0 <= i < |lists| && 0 <= j < |lists[i]| && i < |customers| ==>
        lists[i][j].owner == customers[i].id && lists[i][j].serial < ids.nextAccount
    }

    /** The customers' account lists, in directory order. */
    function AccountLists(): (r: seq<seq<Account>>)
      reads this, customers
      ensures |r| == |customers| && forall i :: 0 <= i < |customers| ==> r[i] == customers[i].accounts
    {
      seq(|customers|, i requires 0 <= i < |customers| reads this, customers => customers[i].accounts)
    }

    /** Under the invariant, the ghost mirror is exactly the customers'
        account lists. */
    lemma DirectoryMirrorsLists()
      requires Valid()
      ensures AccountLists() == lists
    {
    }

    /** Every account the bank holds, customer by customer. */
    ghost function AllAccounts(): seq<Account>
      reads this
    {
      Flatten(lists)
    }

    /** The sum of all balances. */
    ghost function TotalBalance(): real
      reads this, AllAccounts()
    {
      Sum(BalancesOf(AllAccounts()))
    }

    /** Every account at or above its variant's floor. */
    ghost predicate WithinFloors()
      reads this, AllAccounts()
    {
      forall a :: a in AllAccounts() ==> a.balance >= Floor(a.kind)
    }

    /** The account a transfer may touch for a number: the one getAccount finds. */
    ghost function Touched(accountNumber: string): set<Account>
      reads this
    {
      match FindInDirectory(lists, accountNumber)
      case None => {}
      case Some(a) => {a}
    }

    /** When transferFunds succeeds: a positive amount, both numbers found,
        and the source's own withdrawal rule admits the amount. */
    ghost predicate Transferable(fromNumber: string, toNumber: string, amount: real)
      reads this, AllAccounts()
    {
      && amount > 0.0
      && FindInDirectory(lists, fromNumber).Some?
      && FindInDirectory(lists, toNumber).Some?
      && var src := FindInDirectory(lists, fromNumber).value;
         FoundIsListed(lists, fromNumber);
         WithdrawalAllowed(src.kind, src.balance, amount)
    }

    constructor (name: string, ids: IdGenerator, log: EventLog)
      requires log.Valid(ids.nextLogEntry)
      modifies ids, log
      ensures Valid()
      ensures this.name == name && this.ids == ids && this.log == log
      ensures customers == [] && lists == []
      ensures ids.Advanced(0, 0, 0, 1)
      ensures log.entries == old(log.entries) + [LogEntry(old(ids.nextLogEntry), Info, BankInitialized(name))]
    {
      this.name := name;
      this.ids := ids;
      this.log := log;
      customers := [];
      lists := [];
      Repr := {};
      new;
      log.LogEvent(ids, Info, BankInitialized(name));
    }

    /** createCustomer: a new customer goes at the end of the directory,
        with a message; existing customers and their accounts are
        untouched. */
    method CreateCustomer(name: string, address: string, phone: string) returns (c: Customer)
      requires Valid()
      modifies this, ids, log
      ensures Valid()
      ensures fresh(c) && customers == old(customers) + [c] && lists == old(lists) + [[]]
      ensures c.name == name && c.address == address && c.phone == phone && c.accounts == []
      ensures c.id == CustomerIdFor(old(ids.nextCustomer))
      ensures Repr == old(Repr) + {c}
      ensures AllAccounts() == old(AllAccounts())
      ensures old(WithinFloors()) ==> WithinFloors()
      ensures ids.Advanced(0, 1, 0, 2)
      ensures log.entries == old(log.entries) + [
                LogEntry(old(ids.nextLogEntry), Info, CustomerCreated(c.id, name)),
                LogEntry(old(ids.nextLogEntry) + 1, Info, CustomerRegistered(c.id, name))]
    {
      FlattenAppendEmpty(lists);
      c := new Customer(ids, log, name, address, phone);
      log.LogEvent(ids, Info, CustomerRegistered(c.id, c.name));
      customers, lists, Repr := customers + [c], lists + [[]], Repr + {c};
      CustomerAppendKeepsValid(c);
      GrowthKeepsFloors({});
    }

    /** Appending a customer with no accounts, numbered above every existing
        one, to an otherwise untouched directory keeps the invariant. */
    twostate lemma CustomerAppendKeepsValid(new c: Customer)
      requires old(Valid()) && c !in old(Repr) && c.accounts == []
      requires c.serial < ids.nextCustomer && c.id == CustomerIdFor(c.serial)
      requires forall k :: 0 <= k < |old(customers)| ==> old(customers)[k].serial < c.serial
      requires customers == old(customers) + [c] && lists == old(lists) + [[]] && Repr == old(Repr) + {c}
      requires forall k :: 0 <= k < |old(customers)| ==> unchanged(old(customers)[k])
      requires forall a :: old(allocated(a)) && a in old(AllAccounts()) ==>
                 a.balance == old(a.balance) && a.history == old(a.history)
      requires ids.nextAccount == old(ids.nextAccount) && ids.nextTransaction == old(ids.nextTransaction)
      requires old(ids.nextCustomer) <= ids.nextCustomer && log.Valid(ids.nextLogEntry)
      ensures Valid()
    {
      var lists0 := old(lists);
      assert forall i :: 0 <= i < |lists0| ==> lists[i] == lists0[i];
      assert lists[|lists0|] == [];
      forall i, j | 0 <= i < |lists| && 0 <= j < |lists[i]|
        ensures lists[i][j].Valid() && IdsIncreasing(lists[i][j].history, ids.nextTransaction)
      {
        FlattenAt(lists0, i, j);
        var a := lists[i][j];
        assert old(a.Valid()) && old(IdsIncreasing(a.history, ids.nextTransaction));
      }
      forall i: nat, j: nat | i < j < |customers|
        ensures CustomerSerial(customers, i) != CustomerSerial(customers, j)
      {
        if j < |old(customers)| {
          assert CustomerSerial(old(customers), i) != CustomerSerial(old(customers), j);
        }
      }
      assert DirectoryShape();
      assert CustomersNumbered();
      assert AccountsSound();
      assert AccountsOwned();
      EmptyListKeepsSerials(lists0);
    }

    /** getCustomer: the first customer with the id, or nothing. */
    method GetCustomer(customerId: string) returns (r: Option<Customer>)
      ensures r == CustomerWithId(customers, customerId)
    {
      var i := 0;
      while i < |customers|
        invariant 0 <= i <= |customers|
        invariant forall k :: 0 <= k < i ==> customers[k].id != customerId
      {
        if customers[i].id == customerId {
          FirstIndexUnique(customers, (c: Customer) => c.id == customerId, i);
          return Some(customers[i]);
        }
        i := i + 1;
      }
      r := None;
    }

    /** No two customers of the directory share an id. */
    lemma CustomerIdsUnique(i: nat, j: nat)
      requires Valid() && i < |customers| && j < |customers| && i != j
      ensures customers[i].id != customers[j].id
    {
      if i < j {
        assert CustomerSerial(customers, i) != CustomerSerial(customers, j);
      } else {
        assert CustomerSerial(customers, j) != CustomerSerial(customers, i);
      }
      CustomerIdsDistinct(customers[i].serial, customers[j].serial);
    }

    /** Since ids are unique, getCustomer with a customer's own id finds
        exactly that customer. */
    lemma LookupFindsEveryCustomer(i: nat)
      requires Valid() && i < |customers|
      ensures CustomerWithId(customers, customers[i].id) == Some(customers[i])
    {
      var id := customers[i].id;
      forall k | 0 <= k < i
        ensures customers[k].id != id
      {
        CustomerIdsUnique(k, i);
      }
      FirstIndexUnique(customers, (c: Customer) => c.id == id, i);
    }

    /** getCustomerByName: the first customer with the name, or nothing. */
    method GetCustomerByName(name: string) returns (r: Option<Customer>)
      ensures r == CustomerWithName(customers, name)
    {
      var i := 0;
      while i < |customers|
        invariant 0 <= i <= |customers|
        invariant forall k :: 0 <= k < i ==> customers[k].name != name
      {
        if customers[i].name == name {
          FirstIndexUnique(customers, (c: Customer) => c.name == name, i);
          return Some(customers[i]);
        }
        i := i + 1;
      }
      r := None;
    }

    /** getAllCustomers: the customers in registration order. */
    method GetAllCustomers() returns (all: seq<Customer>)
      ensures all == customers
    {
      all := [];
      var i := 0;
      while i < |customers|
        invariant 0 <= i <= |customers|
        invariant all == customers[..i]
      {
        all := all + [customers[i]];
        i := i + 1;
      }
      assert customers[..|customers|] == customers;
    }

    /** getAccount: ask each customer in order; the first hit wins. */
    method GetAccount(accountNumber: string) returns (r: Option<Account>)
      requires Valid()
      ensures r == FindInDirectory(lists, accountNumber)
    {
      var i := 0;
      while i < |customers|
        invariant 0 <= i <= |customers|
        invariant FindInDirectory(lists, accountNumber) == FindInDirectory(lists[i..], accountNumber)
      {
        var hit := customers[i].GetAccount(accountNumber);
        if hit.Some? {
          return hit;
        }
        assert lists[i..][1..] == lists[i + 1..];
        i := i + 1;
      }
      r := None;
    }

    /** getAllAccounts: every account exactly once, customer by customer and
        in each customer's insertion order. */
    method GetAllAccounts() returns (all: seq<Account>)
      requires Valid()
      ensures all == AllAccounts()
      ensures forall p, q :: 0 <= p < q < |all| ==> all[p] != all[q]
      ensures forall i, j :: 0 <= i < |lists| && 0 <= j < |lists[i]| ==> lists[i][j] in all
    {
      all := [];
      var i := 0;
      while i < |customers|
        invariant 0 <= i <= |customers|
        invariant all == Flatten(lists[..i])
      {
        var accs := customers[i].GetAccounts();
        var j := 0;
        while j < |accs|
          invariant 0 <= j <= |accs|
          invariant all == Flatten(lists[..i]) + accs[..j]
        {
          all := all + [accs[j]];
          j := j + 1;
        }
        assert accs[..|accs|] == accs;
        FlattenPrefix(lists, i);
        i := i + 1;
      }
      assert lists[..|lists|] == lists;
      SerialsDistinctObjects(lists);
      FlattenDistinct(lists);
      forall i, j | 0 <= i < |lists| && 0 <= j < |lists[i]|
        ensures lists[i][j] in all
      {
        FlattenAt(lists, i, j);
      }
    }

    /** The outcome of creating an account of the given kind for customerId:
        an unknown customer gets nothing and an ERROR; otherwise a fresh
        account, numbered from the account counter, owned by that customer
        and appended to the first customer with that id. */
    twostate predicate Created(customerId: string, initialBalance: real, kind: Kind, new r: Option<Account>)
      reads this, ids, log, if r.Some? then {r.value} else {}
    {
      && customers == old(customers)
      && match CustomerIndex(customers, customerId)
         case None => r.None? && Refused(customerId, kind)
         case Some(k) => r.Some? && Opened(k, customerId, initialBalance, kind, r.value)
    }

    /** Nothing changes but one ERROR in the log. */
    twostate predicate Refused(customerId: string, kind: Kind)
      reads this, ids, log
    {
      && lists == old(lists) && Repr == old(Repr)
      && ids.Advanced(0, 0, 0, 1)
      && log.entries == old(log.entries) + [LogEntry(old(ids.nextLogEntry), Error, CreationFailedEvent(kind, customerId))]
    }

    /** acc is new, appended to customer k's list, and logged three times. */
    twostate predicate Opened(k: nat, customerId: string, initialBalance: real, kind: Kind, new acc: Account)
      reads this, ids, log, acc
    {
      && k < |old(lists)|
      && fresh(acc)
      && lists == old(lists)[k := old(lists)[k] + [acc]]
      && Repr == old(Repr) + {acc}
      && acc.owner == customerId && acc.kind == kind
      && acc.number == AccountNumberFor(old(ids.nextAccount))
      && acc.balance == initialBalance && acc.history == []
      && ids.Advanced(1, 0, 0, 3)
      && log.entries == old(log.entries) + [
           LogEntry(old(ids.nextLogEntry), Info, AccountCreated(acc.number, customerId, initialBalance)),
           LogEntry(old(ids.nextLogEntry) + 1, Info, CreatedEvent(kind, acc.number, customerId)),
           LogEntry(old(ids.nextLogEntry) + 2, Info, AccountAdded(acc.number, customerId))]
    }

    /** The shared body of createSavingsAccount and createCheckingAccount
        (Bank.cpp:59-72 and 74-87): look the customer up, then refuse
        (RefuseAccount) or open and hand over the account (OpenAccount,
        AttachAccount). */
    method CreateAccount(customerId: string, initialBalance: real, kind: Kind) returns (r: Option<Account>)
      requires Valid()
      modifies this, ids, log, customers
      ensures Valid()
      ensures Created(customerId, initialBalance, kind, r)
      ensures old(WithinFloors()) && initialBalance >= Floor(kind) ==> WithinFloors()
    {
      var found := CustomerWithId(customers, customerId);
      if found.None? {
        RefuseAccount(customerId, kind);
        return None;
      }
      ghost var k := CustomerIndex(customers, customerId).value;
      ghost var lists0 := lists;
      var acc := OpenAccount(found.value, k, customerId, initialBalance, kind);
      FlattenAppendTo(lists0, k, acc);
      GrowthKeepsFloors({acc});
      r := Some(acc);
    }

    /** An account requested for an unknown customer (Bank.cpp:61-67): only
        an ERROR is logged. */
    method RefuseAccount(customerId: string, kind: Kind)
      requires Valid()
      modifies ids, log
      ensures Valid()
      ensures Refused(customerId, kind)
      ensures old(WithinFloors()) ==> WithinFloors()
    {
      log.LogEvent(ids, Error, CreationFailedEvent(kind, customerId));
      assert DirectoryShape() && AccountsSound() && AccountsOwned() && CustomersNumbered();
      GrowthKeepsFloors({});
    }

    /** Creating the account for the customer found at position k and
        handing it to that customer (Bank.cpp:68-71). */
    method OpenAccount(c: Customer, ghost k: nat, customerId: string, initialBalance: real, kind: Kind) returns (acc: Account)
      requires Valid() && k < |customers| && c == customers[k] && c.id == customerId
      modifies this, ids, log, c
      ensures Valid()
      ensures customers == old(customers)
      ensures Opened(k, customerId, initialBalance, kind, acc)
    {
      ghost var entries0, id0 := log.entries, ids.nextLogEntry;
      acc := new Account(ids, log, c.id, initialBalance, kind);
      ghost var entries1 := log.entries;
      ghost var e0 := LogEntry(id0, Info, AccountCreated(acc.number, c.id, initialBalance));
      ghost var e1 := LogEntry(id0 + 1, Info, CreatedEvent(kind, acc.number, c.id));
      ghost var e2 := LogEntry(id0 + 2, Info, AccountAdded(acc.number, c.id));
      assert entries1 == entries0 + [e0, e1];
      assert ids.nextLogEntry == id0 + 2;
      assert DirectoryShape() && AccountsSound() && AccountsOwned() && CustomersNumbered();
      AttachAccount(c, k, acc);
      assert log.entries == entries1 + [e2];
      assert log.entries == entries0 + [e0, e1, e2];
    }

    /** customer->addAccount(account) for a freshly created account
        (Bank.cpp:70): it goes at the end of customer k's list. */
    method AttachAccount(c: Customer, ghost k: nat, acc: Account)
      requires Valid() && k < |customers| && c == customers[k]
      requires acc !in Repr && acc.Valid() && IdsIncreasing(acc.history, ids.nextTransaction)
      requires acc.owner == customers[k].id && acc.serial < ids.nextAccount
      requires forall i, j :: 0 <= i < |lists| && 0 <= j < |lists[i]| ==> lists[i][j].serial < acc.serial
      modifies this, ids, log, c
      ensures Valid()
      ensures customers == old(customers)
      ensures lists == old(lists)[k := old(lists)[k] + [acc]]
      ensures Repr == old(Repr) + {acc}
      ensures ids.Advanced(0, 0, 0, 1)
      ensures log.entries == old(log.entries) + [LogEntry(old(ids.nextLogEntry), Info, AccountAdded(acc.number, customers[k].id))]
    {
      ghost var lists0 := lists;
      forall i: nat | i < |customers| && i != k
        ensures customers[i] != c
      {
        if i < k {
          assert CustomerSerial(customers, i) != CustomerSerial(customers, k);
        } else {
          assert CustomerSerial(customers, k) != CustomerSerial(customers, i);
        }
      }
      c.AddAccount(acc, ids, log);
      lists := lists[k := lists[k] + [acc]];
      Repr := Repr + {acc};
      assert forall i :: 0 <= i < |lists| && i != k ==> lists[i] == lists0[i];
      assert forall j :: 0 <= j < |lists0[k]| ==> lists[k][j] == lists0[k][j];
      assert lists[k][|lists0[k]|] == acc;
      SerialsDistinctAppend(lists0, k, acc);
      assert DirectoryShape();
      assert CustomersNumbered();
      forall i, j | 0 <= i < |lists| && 0 <= j < |lists[i]| && lists[i][j] in Repr
        ensures lists[i][j].Valid() && IdsIncreasing(lists[i][j].history, ids.nextTransaction)
        ensures i < |customers| ==> lists[i][j].owner == customers[i].id && lists[i][j].serial < ids.nextAccount
      {
        if i != k || j < |lists0[k]| {
          assert lists[i][j] == lists0[i][j];
        }
      }
      assert AccountsSound();
      assert AccountsOwned();
    }

    /** A directory that gained no accounts but those in added, with no
        listed balance changed, is within its floors if it was before and
        every added account is. */
    twostate lemma GrowthKeepsFloors(new added: set<Account>)
      requires forall a :: a in AllAccounts() ==> a in added || a in old(AllAccounts())
      requires forall a :: old(allocated(a)) && a in old(AllAccounts()) ==> a.balance == old(a.balance)
      ensures old(WithinFloors()) && (forall a :: a in added ==> a.balance >= Floor(a.kind)) ==> WithinFloors()
    {
      if old(WithinFloors()) && (forall a :: a in added ==> a.balance >= Floor(a.kind)) {
        forall a | a in AllAccounts()
          ensures a.balance >= Floor(a.kind)
        {
          if a !in added {
            FlattenMembership(old(lists), a);
            var i, j :| 0 <= i < |old(lists)| && 0 <= j < |old(lists)[i]| && old(lists)[i][j] == a;
            assert old(allocated(lists[i][j]));
            assert old(a.balance >= Floor(a.kind));
          }
        }
      }
    }

    /** createSavingsAccount. */
    method CreateSavingsAccount(customerId: string, initialBalance: real, interestRate: real) returns (r: Option<Account>)
      requires Valid()
      modifies this, ids, log, customers
      ensures Valid()
      ensures Created(customerId, initialBalance, Savings(interestRate), r)
      ensures old(WithinFloors()) && initialBalance >= 0.0 ==> WithinFloors()
    {
      r := CreateAccount(customerId, initialBalance, Savings(interestRate));
    }

    /** createCheckingAccount. */
    method CreateCheckingAccount(customerId: string, initialBalance: real, overdraftLimit: real) returns (r: Option<Account>)
      requires Valid()
      modifies this, ids, log, customers
      ensures Valid()
      ensures Created(customerId, initialBalance, Checking(overdraftLimit), r)
      ensures old(WithinFloors()) && initialBalance >= -overdraftLimit ==> WithinFloors()
    {
      r := CreateAccount(customerId, initialBalance, Checking(overdraftLimit));
    }

    /** transferFunds: refuse a non-positive amount or an unknown number;
        otherwise withdraw from the source under its own rule and, only if
        that succeeds, deposit into the destination. Money is neither
        created nor lost, and no account falls below its floor.
        Bank.cpp:112-153 in one method: the refusals of lines 113-137 are
        RefuseTransfer, the paired withdraw and deposit of lines 139-152 are
        TransferFound, MoveBetween, MoveFunds and CreditTransfer. */
    method TransferFunds(fromNumber: string, toNumber: string, amount: real, description: string) returns (ok: bool)
      requires Valid()
      modifies Touched(fromNumber), Touched(toNumber), ids, log
      ensures Valid()
      ensures TotalBalance() == old(TotalBalance())
      ensures old(WithinFloors()) ==> WithinFloors()
      ensures TransferOutcome(fromNumber, toNumber, amount, description, ok)
    {
      if amount <= 0.0 {
        RefuseTransfer(fromNumber, toNumber, amount, description, Message(Warning, TransferInvalidAmount(amount)));
        return false;
      }
      DirectoryMirrorsLists();
      var from := FindInDirectory(AccountLists(), fromNumber);
      var to := FindInDirectory(AccountLists(), toNumber);
      var refusal := TransferRefusal(amount, fromNumber, toNumber, from, to);
      if refusal.Some? {
        RefuseTransfer(fromNumber, toNumber, amount, description, refusal.value);
        return false;
      }
      ok := TransferFound(fromNumber, toNumber, amount, description, from.value, to.value);
    }

    /** Everything transferFunds promises about the two numbers, the ledger
        and the log: it succeeds exactly when the transfer was admissible;
        a refusal logs its one message and touches no account; a failed
        withdrawal logs the withdrawal's message and then the transfer's
        WARNING, and touches no account; a success moves the money and logs
        the withdrawal's message, the deposit's INFO and the transfer's
        INFO, in that order. */
    twostate predicate TransferOutcome(fromNumber: string, toNumber: string, amount: real, description: string, ok: bool)
      reads this, ids, log, Touched(fromNumber), Touched(toNumber), AllAccounts()
    {
      && lists == old(lists)
      && (ok <==> old(Transferable(fromNumber, toNumber, amount)))
      && (!ok ==> LedgerKept())
      && (ok ==> Moved(FindInDirectory(lists, fromNumber).value, FindInDirectory(lists, toNumber).value, amount, description, ids, log))
      && (Refusal(fromNumber, toNumber, amount).Some? ==>
            log.entries == old(log.entries) + [Refusal(fromNumber, toNumber, amount).value.Entry(old(ids.nextLogEntry))])
      && old(log.entries) < log.entries
      && (!ok && Refusal(fromNumber, toNumber, amount).None? ==>
            Last(log.entries) == LogEntry(old(ids.nextLogEntry) + 1, Warning, TransferWithdrawalFailed(fromNumber, toNumber)))
      && (!ok && Refusal(fromNumber, toNumber, amount).None? ==>
            Stopped(FindInDirectory(lists, fromNumber).value, FindInDirectory(lists, toNumber).value, amount, ids, log))
      && ids.Advanced(0, 0, if ok then 2 else 0, |log.entries| - |old(log.entries)|)
    }

    /** transferFunds refusing before it touches any account
        (Bank.cpp:113-119, 124-137). */
    method RefuseTransfer(ghost fromNumber: string, ghost toNumber: string, ghost amount: real, ghost description: string, m: Message)
      requires Valid() && Refusal(fromNumber, toNumber, amount) == Some(m)
      modifies ids, log
      ensures Valid()
      ensures TotalBalance() == old(TotalBalance())
      ensures old(WithinFloors()) ==> WithinFloors()
      ensures TransferOutcome(fromNumber, toNumber, amount, description, false)
    {
      LogBankEvent(m.level, m.event);
    }

    /** transferFunds once both numbers are found (Bank.cpp:139-152). */
    method TransferFound(fromNumber: string, toNumber: string, amount: real, description: string, src: Account, dst: Account)
      returns (ok: bool)
      requires Valid() && amount > 0.0
      requires FindInDirectory(lists, fromNumber) == Some(src) && FindInDirectory(lists, toNumber) == Some(dst)
      modifies src, dst, ids, log
      ensures Valid()
      ensures TotalBalance() == old(TotalBalance())
      ensures old(WithinFloors()) ==> WithinFloors()
      ensures TransferOutcome(fromNumber, toNumber, amount, description, ok)
    {
      FoundIsListed(lists, fromNumber);
      FoundIsListed(lists, toNumber);
      ok := MoveBetween(src, dst, amount, description);
    }

    /** The message transferFunds refuses with before touching any account. */
    ghost function Refusal(fromNumber: string, toNumber: string, amount: real): Option<Message>
      reads this
    {
      TransferRefusal(amount, fromNumber, toNumber, FindInDirectory(lists, fromNumber), FindInDirectory(lists, toNumber))
    }

    /** No account's balance or history changed. */
    twostate predicate LedgerKept()
      reads this, AllAccounts()
    {
      && BalancesOf(AllAccounts()) == old(BalancesOf(AllAccounts()))
      && HistoriesOf(AllAccounts()) == old(HistoriesOf(AllAccounts()))
    }

    /** A message the bank logs on its own behalf (the refusals of
        Bank.cpp:113-137, the opening maintenance message of Bank.cpp:158-161): one entry, and no account is touched. */
    method LogBankEvent(level: LogLevel, event: Event)
      requires Valid()
      modifies ids, log
      ensures Valid()
      ensures TotalBalance() == old(TotalBalance())
      ensures old(WithinFloors()) ==> WithinFloors()
      ensures log.entries == old(log.entries) + [LogEntry(old(ids.nextLogEntry), level, event)]
      ensures ids.Advanced(0, 0, 0, 1)
      ensures LedgerKept()
    {
      ghost var before := BalancesOf(AllAccounts());
      ghost var histories := HistoriesOf(AllAccounts());
      log.LogEvent(ids, level, event);
      assert DirectoryShape() && AccountsSound() && AccountsOwned() && CustomersNumbered();
      assert BalancesOf(AllAccounts()) == before;
      assert HistoriesOf(AllAccounts()) == histories;
    }

    /** A transfer between two listed accounts (Bank.cpp:139-152), with the
        ledger-wide consequences of MoveFunds. */
    method MoveBetween(src: Account, dst: Account, amount: real, description: string) returns (ok: bool)
      requires Valid() && amount > 0.0
      requires src in AllAccounts() && dst in AllAccounts()
      modifies src, dst, ids, log
      ensures Valid()
      ensures ok <==> WithdrawalAllowed(src.kind, old(src.balance), amount)
      ensures TotalBalance() == old(TotalBalance())
      ensures old(WithinFloors()) ==> WithinFloors()
      ensures !ok ==> LedgerKept()
      ensures ok ==> Moved(src, dst, amount, description, ids, log)
      ensures !ok ==> Stopped(src, dst, amount, ids, log)
      ensures old(log.entries) < log.entries
      ensures !ok ==> Last(log.entries) == LogEntry(old(ids.nextLogEntry) + 1, Warning, TransferWithdrawalFailed(src.number, dst.number))
      ensures ids.Advanced(0, 0, if ok then 2 else 0, |log.entries| - |old(log.entries)|)
    {
      FlattenMembership(lists, src);
      FlattenMembership(lists, dst);
      ok := MoveFunds(src, dst, amount, description, ids, log);
      MoveKeepsBank(Move(src, dst, if ok then amount else 0.0));
      if !ok {
        LedgerChangeKept({src, dst});
      }
    }

    /** After only the accounts in changed were updated, each of them still
        consistent, and the account and customer counters untouched, the
        invariant holds again. */
    twostate lemma LedgerChangeKeepsValid(changed: set<Account>)
      requires old(Valid()) && unchanged(this)
      requires forall k :: 0 <= k < |customers| ==> unchanged(customers[k])
      requires forall a :: old(allocated(a)) && a in old(AllAccounts()) && a !in changed ==>
                 a.balance == old(a.balance) && a.history == old(a.history)
      requires forall a :: a in changed ==> a.Consistent(ids, log)
      requires ids.nextAccount == old(ids.nextAccount) && ids.nextCustomer == old(ids.nextCustomer)
      requires old(ids.nextTransaction) <= ids.nextTransaction && log.Valid(ids.nextLogEntry)
      ensures Valid()
    {
      forall i, j | 0 <= i < |lists| && 0 <= j < |lists[i]|
        ensures lists[i][j].Valid() && IdsIncreasing(lists[i][j].history, ids.nextTransaction)
      {
        FlattenAt(lists, i, j);
        var a := lists[i][j];
        if a !in changed {
          assert old(a.Valid()) && old(IdsIncreasing(a.history, ids.nextTransaction));
        }
      }
    }

    /** A move of amount from one listed account to another (or to itself),
        leaving both consistent and the source at or above its floor and
        changing nothing else, keeps the invariant, the total and the floors. */
    twostate lemma MoveKeepsBank(move: Move)
      requires old(Valid()) && unchanged(this)
      requires forall k :: 0 <= k < |customers| ==> unchanged(customers[k])
      requires move.source in AllAccounts() && move.target in AllAccounts() && move.amount >= 0.0
      requires forall a :: old(allocated(a)) && a in old(AllAccounts()) && a != move.source && a != move.target ==>
                 a.balance == old(a.balance) && a.history == old(a.history)
      requires move.source.Consistent(ids, log) && move.target.Consistent(ids, log)
      requires ids.nextAccount == old(ids.nextAccount) && ids.nextCustomer == old(ids.nextCustomer)
      requires old(ids.nextTransaction) <= ids.nextTransaction
      requires move.source != move.target ==> move.source.balance == old(move.source.balance) - move.amount && move.target.balance == old(move.target.balance) + move.amount
      requires move.source == move.target ==> move.source.balance == old(move.source.balance)
      requires move.source.balance >= Floor(move.source.kind) || move.source.balance >= old(move.source.balance)
      ensures Valid()
      ensures TotalBalance() == old(TotalBalance())
      ensures old(WithinFloors()) ==> WithinFloors()
    {
      LedgerChangeKeepsValid({move.source, move.target});
      LedgerChangeKeepsFloors({move.source, move.target});
      TransferKeepsTotal(move);
    }

    /** Moving an amount from one listed account to another, or to itself,
        and changing no other balance keeps the total. */
    twostate lemma TransferKeepsTotal(move: Move)
      requires unchanged(this) && SerialsDistinct(lists)
      requires move.source in AllAccounts() && move.target in AllAccounts()
      requires forall a :: old(allocated(a)) && a in old(AllAccounts()) && a != move.source && a != move.target ==> a.balance == old(a.balance)
      requires move.source != move.target ==> move.source.balance == old(move.source.balance) - move.amount && move.target.balance == old(move.target.balance) + move.amount
      requires move.source == move.target ==> move.source.balance == old(move.source.balance)
      ensures TotalBalance() == old(TotalBalance())
    {
      var Move(src, dst, amount) := move;
      var all := AllAccounts();
      var before := old(BalancesOf(all));
      var after := BalancesOf(all);
      var p, i, j := Locate(lists, src);
      var q, i', j' := Locate(lists, dst);
      forall k | 0 <= k < |all| && k != p && k != q
        ensures after[k] == before[k]
      {
        var i, j := FlattenCover(lists, k);
        assert old(allocated(lists[i][j]));
      }
      if p != q {
        SumTransfer(before, after, p, q, amount);
      } else {
        assert after == before;
      }
    }

    /** If neither account in changed changed either, no account did. */
    twostate lemma LedgerChangeKept(changed: set<Account>)
      requires unchanged(this)
      requires forall a :: old(allocated(a)) && a in old(AllAccounts()) && a !in changed ==>
                 a.balance == old(a.balance) && a.history == old(a.history)
      requires forall a :: a in changed ==> a.balance == old(a.balance) && a.history == old(a.history)
      ensures LedgerKept()
    {
      var all := AllAccounts();
      forall k | 0 <= k < |all|
        ensures old(allocated(all[k])) && all[k].balance == old(all[k].balance) && all[k].history == old(all[k].history)
      {
        var i, j := FlattenCover(lists, k);
        assert old(allocated(lists[i][j]));
      }
      assert BalancesOf(all) == old(BalancesOf(all));
      assert HistoriesOf(all) == old(HistoriesOf(all));
    }

    /** Accounts in changed that end at or above their floor, or at or above
        their old balance, keep every account within its floor. */
    twostate lemma LedgerChangeKeepsFloors(changed: set<Account>)
      requires unchanged(this)
      requires forall a :: old(allocated(a)) && a in old(AllAccounts()) && a !in changed ==> a.balance == old(a.balance)
      requires forall a :: a in changed ==> a.balance >= Floor(a.kind) || a.balance >= old(a.balance)
      ensures old(WithinFloors()) ==> WithinFloors()
    {
      if old(WithinFloors()) {
        forall a | a in AllAccounts()
          ensures a.balance >= Floor(a.kind)
        {
          FlattenMembership(lists, a);
          var i, j :| 0 <= i < |lists| && 0 <= j < |lists[i]| && lists[i][j] == a;
          assert old(allocated(lists[i][j]));
          assert old(a.balance >= Floor(a.kind));
        }
      }
    }

    /** The accounts the maintenance sweep may change. */
    ghost function AccountSet(): set<Account>
      reads this
    {
      set a | a in AllAccounts()
    }

    /** The maintenance sweep has reached position k of the listing: every
        account before it changed as performMonthlyMaintenance changes it,
        every account from it on still holds the balance and history of the
        snapshot. */
    ghost predicate MaintainedUpTo(k: nat, balances: seq<real>, histories: seq<seq<Transaction>>)
      reads this, AllAccounts()
    {
      var all := AllAccounts();
      && |balances| == |all| && |histories| == |all| && k <= |all|
      && (forall p: nat :: p < k ==> Swept(all, p, balances, histories))
      && (forall p: nat :: k <= p < |all| ==> Untouched(all, p, balances, histories))
    }

    /** Before the sweep starts, every account holds the balance and history
        of a snapshot taken of the listing. */
    lemma SweepStarts()
      ensures MaintainedUpTo(0, BalancesOf(AllAccounts()), HistoriesOf(AllAccounts()))
    {
      var all := AllAccounts();
      forall p: nat | p < |all|
        ensures Untouched(all, p, BalancesOf(all), HistoriesOf(all))
      {
      }
    }

    /** The bank's invariant holds and the sweep has reached position k. */
    ghost predicate SweptTo(k: nat, balances: seq<real>, histories: seq<seq<Transaction>>, mark: LogMark)
      reads this, Repr, ids, log, AllAccounts()
    {
      Valid() && MaintainedUpTo(k, balances, histories) && LoggedUpTo(k, balances, mark)
    }

    /** The maintenance sweep has logged, since mark, the messages of the
        accounts before position k, numbered in order, and drawn one
        transaction id for each of them that earned interest; it has drawn
        no account or customer number. */
    ghost predicate LoggedUpTo(k: nat, balances: seq<real>, mark: LogMark)
      reads this, ids, log
    {
      var all := AllAccounts();
      && k <= |all| && |balances| == |all|
      && log.entries == mark.entries + Numbered(mark.nextLogEntry, SweepMessages(all, balances, k))
      && ids.nextLogEntry == mark.nextLogEntry + |SweepMessages(all, balances, k)|
      && ids.nextTransaction == mark.nextTransaction + InterestCount(all, balances, k)
      && ids.nextAccount == mark.nextAccount && ids.nextCustomer == mark.nextCustomer
    }

    /** runMonthlyMaintenance: an INFO message, then every account of every
        customer, in directory order, has its variant's maintenance
        performed, then a closing INFO message. Bank.cpp:157-170 in one
        method: lines 158-161 and 167-170 here, the loop (lines 162-166) in
        MaintainAllCustomers, which runs MaintainCustomer for each customer,
        each iteration's call (line 164) being MaintainAccount. */
    method RunMonthlyMaintenance()
      requires Valid()
      modifies AccountSet(), ids, log
      ensures Valid()
      ensures MaintainedUpTo(|AllAccounts()|, old(BalancesOf(AllAccounts())), old(HistoriesOf(AllAccounts())))
      ensures old(WithinFloors()) ==> WithinFloors()
      ensures var sweep := SweepMessages(AllAccounts(), old(BalancesOf(AllAccounts())), |AllAccounts()|);
              && log.entries == old(log.entries) + Numbered(old(ids.nextLogEntry),
                   [Message(Info, MaintenanceStarted)] + (sweep + [Message(Info, MaintenanceCompleted)]))
              && ids.Advanced(0, 0, InterestCount(AllAccounts(), old(BalancesOf(AllAccounts())), |AllAccounts()|), |sweep| + 2)
    {
      ghost var balances := BalancesOf(AllAccounts());
      ghost var histories := HistoriesOf(AllAccounts());
      ghost var opening := Message(Info, MaintenanceStarted);
      SweepStarts();
      LogBankEvent(Info, MaintenanceStarted);
      ghost var mark := LogMark(log.entries, ids.nextLogEntry, ids.nextTransaction, ids.nextAccount, ids.nextCustomer);
      MaintainAllCustomers(balances, histories, mark);
      ghost var sweep := SweepMessages(AllAccounts(), balances, |AllAccounts()|);
      CloseMaintenance(balances, histories, mark);
      MaintenanceKeepsFloors();
      NumberedPrepend(log.entries, mark.entries, old(log.entries), LogEntry(old(ids.nextLogEntry), Info, MaintenanceStarted),
        mark.nextLogEntry, opening, sweep + [Message(Info, MaintenanceCompleted)]);
    }

    /** The outer loop of runMonthlyMaintenance (Bank.cpp:162-166): every
        customer, in directory order. */
    method MaintainAllCustomers(ghost balances: seq<real>, ghost histories: seq<seq<Transaction>>, ghost mark: LogMark)
      requires Valid() && MaintainedUpTo(0, balances, histories) && LoggedUpTo(0, balances, mark)
      modifies AccountSet(), ids, log
      ensures Valid()
      ensures MaintainedUpTo(|AllAccounts()|, balances, histories) && LoggedUpTo(|AllAccounts()|, balances, mark)
    {
      var i := 0;
      while i < |customers|
        invariant 0 <= i <= |customers|
        invariant Valid()
        invariant MaintainedUpTo(Offset(lists, i), balances, histories) && LoggedUpTo(Offset(lists, i), balances, mark)
      {
        MaintainCustomer(i, balances, histories, mark);
        i := i + 1;
      }
      assert lists[..|lists|] == lists;
    }

    /** The closing INFO message of runMonthlyMaintenance (Bank.cpp:167-170),
        numbered on from the run of messages the sweep logged since mark;
        the swept accounts are left as the sweep left them. */
    method CloseMaintenance(ghost balances: seq<real>, ghost histories: seq<seq<Transaction>>, ghost mark: LogMark)
      requires Valid() && MaintainedUpTo(|AllAccounts()|, balances, histories) && LoggedUpTo(|AllAccounts()|, balances, mark)
      modifies ids, log
      ensures Valid() && MaintainedUpTo(|AllAccounts()|, balances, histories)
      ensures log.entries == mark.entries + Numbered(mark.nextLogEntry,
                SweepMessages(AllAccounts(), balances, |AllAccounts()|) + [Message(Info, MaintenanceCompleted)])
      ensures ids.Advanced(0, 0, 0, 1)
    {
      ghost var sweep := SweepMessages(AllAccounts(), balances, |AllAccounts()|);
      ghost var swept := log.entries;
      assert ids.nextLogEntry == mark.nextLogEntry + |sweep|;
      log.LogEvent(ids, Info, MaintenanceCompleted);
      assert DirectoryShape() && AccountsSound() && AccountsOwned() && CustomersNumbered();
      NumberedPush(log.entries, swept, mark.entries, mark.nextLogEntry, sweep, Message(Info, MaintenanceCompleted));
    }

    /** The inner loop of runMonthlyMaintenance (Bank.cpp:163-165): every
        account of customer i, in the customer's order. */
    method MaintainCustomer(i: nat, ghost balances: seq<real>, ghost histories: seq<seq<Transaction>>, ghost mark: LogMark)
      requires Valid() && i < |customers|
      requires MaintainedUpTo(Offset(lists, i), balances, histories) && LoggedUpTo(Offset(lists, i), balances, mark)
      modifies AccountSet(), ids, log
      ensures Valid()
      ensures MaintainedUpTo(Offset(lists, i + 1), balances, histories) && LoggedUpTo(Offset(lists, i + 1), balances, mark)
    {
      var accs := customers[i].accounts;
      CustomerAccountsListed(i);
      ghost var k := Offset(lists, i);
      ghost var own := set a | a in accs;
      var j := 0;
      while j < |accs|
        invariant 0 <= j <= |accs| && accs == lists[i] && k == Offset(lists, i) + j
        invariant SweptTo(k, balances, histories, mark)
        modifies own, ids, log
      {
        AccountAt(i, j, k);
        MaintainAccount(accs[j], k, balances, histories, mark);
        j, k := j + 1, k + 1;
      }
      FlattenPrefix(lists, i);
      assert k == Offset(lists, i + 1);
    }

    /** Every account of customer i is one the sweep may change. */
    lemma CustomerAccountsListed(i: nat)
      requires i < |lists|
      ensures forall a :: a in lists[i] ==> a in AccountSet()
    {
      forall a | a in lists[i]
        ensures a in AllAccounts()
      {
        FlattenMembership(lists, a);
      }
    }

    /** The j-th account of customer i sits at position Offset(i) + j of
        the customer-then-account listing. */
    lemma AccountAt(i: nat, j: nat, k: nat)
      requires i < |lists| && j < |lists[i]| && k == Offset(lists, i) + j
      ensures k < |AllAccounts()| && AllAccounts()[k] == lists[i][j]
    {
      FlattenAt(lists, i, j);
    }

    /** One account's performMonthlyMaintenance under the bank's invariant
        (Bank.cpp:164): the sweep advances past position k. */
    method MaintainAccount(acc: Account, ghost k: nat, ghost balances: seq<real>, ghost histories: seq<seq<Transaction>>, ghost mark: LogMark)
      requires k < |AllAccounts()| && AllAccounts()[k] == acc
      requires SweptTo(k, balances, histories, mark)
      modifies acc, ids, log
      ensures MaintenanceEffect(acc.kind, acc.number, old(acc.balance), old(acc.history), acc.balance, acc.history)
      ensures SweptTo(k + 1, balances, histories, mark)
    {
      FlattenMembership(lists, acc);
      assert Untouched(AllAccounts(), k, balances, histories);
      ghost var before := SweepMessages(AllAccounts(), balances, k);
      ghost var own := MaintenanceMessages(acc.kind, acc.number, acc.balance);
      ghost var logged, next := log.entries, ids.nextLogEntry;
      acc.PerformMonthlyMaintenance(ids, log);
      LedgerChangeKeepsValid({acc});
      SweepStep(SweepPoint(acc, k, balances, histories));
      NumberedExtend(log.entries, logged, mark.entries, mark.nextLogEntry, next, before, own,
        SweepMessages(AllAccounts(), balances, k + 1));
    }

    /** When only the account at position k changed, and it changed as
        maintenance changes it, the sweep has advanced past k. */
    twostate lemma SweepStep(step: SweepPoint)
      requires unchanged(this) && SerialsDistinct(lists)
      requires step.position < |AllAccounts()| && AllAccounts()[step.position] == step.account
      requires old(MaintainedUpTo(step.position, step.balances, step.histories))
      requires forall a :: old(allocated(a)) && a in old(AllAccounts()) && a != step.account ==>
                 a.balance == old(a.balance) && a.history == old(a.history)
      requires MaintenanceEffect(step.account.kind, step.account.number, old(step.account.balance), old(step.account.history), step.account.balance, step.account.history)
      ensures MaintainedUpTo(step.position + 1, step.balances, step.histories)
    {
      var SweepPoint(acc, k, balances, histories) := step;
      var all := AllAccounts();
      SerialsDistinctObjects(lists);
      FlattenDistinct(lists);
      forall p | 0 <= p < |all|
        ensures old(allocated(all[p]))
        ensures p != k ==> all[p].balance == old(all[p].balance) && all[p].history == old(all[p].history)
      {
        var i, j := FlattenCover(lists, p);
        assert old(allocated(lists[i][j]));
      }
      forall p: nat | p <= k
        ensures Swept(all, p, balances, histories)
      {
        if p < k {
          assert old(Swept(all, p, balances, histories));
        } else {
          assert old(Untouched(all, k, balances, histories));
        }
      }
      forall p: nat | k < p < |all|
        ensures Untouched(all, p, balances, histories)
      {
        assert old(Untouched(all, p, balances, histories));
      }
    }

    /** Maintenance only adds interest, so it keeps every account within
        its floor. */
    twostate lemma MaintenanceKeepsFloors()
      requires unchanged(this)
      requires MaintainedUpTo(|AllAccounts()|, old(BalancesOf(AllAccounts())), old(HistoriesOf(AllAccounts())))
      ensures old(WithinFloors()) ==> WithinFloors()
    {
      if old(WithinFloors()) {
        var all := AllAccounts();
        var balances, histories := old(BalancesOf(AllAccounts())), old(HistoriesOf(AllAccounts()));
        forall p | 0 <= p < |all|
          ensures all[p].balance >= Floor(all[p].kind)
        {
          assert Swept(all, p, balances, histories);
          var i, j := FlattenCover(lists, p);
          assert old(allocated(lists[i][j]));
          assert old(all[p].balance >= Floor(all[p].kind));
          MonthlyGainNonNegative(all[p].kind, balances[p]);
        }
      }
    }
  }

  /** The effect of a completed transfer from src to dst: a withdrawal
      record on src and a deposit record on dst, numbered one after the
      other, the amount moved between their balances, and three log
      entries: the withdrawal's own message, the deposit's INFO and the
      INFO transfer message last. */
  twostate predicate Moved(src: Account, dst: Account, amount: real, description: string, ids: IdGenerator, log: EventLog)
  reads ids, log, src, dst
  {
    && src.history == old(src.history) + [TransferOut(old(ids.nextTransaction), src.number, dst.number, amount, description)]
                      + (if src == dst then [TransferIn(old(ids.nextTransaction) + 1, src.number, dst.number, amount, description)] else [])
    && (src != dst ==> dst.history == old(dst.history) + [TransferIn(old(ids.nextTransaction) + 1, src.number, dst.number, amount, description)])
    && (src != dst ==> src.balance == old(src.balance) - amount && dst.balance == old(dst.balance) + amount)
    && (src == dst ==> src.balance == old(src.balance))
    && log.entries == old(log.entries) + [
         WithdrawalMessage(src.kind, src.number, old(src.balance), amount).Entry(old(ids.nextLogEntry)),
         LogEntry(old(ids.nextLogEntry) + 1, Info, Deposited(dst.number, amount, dst.balance)),
         LogEntry(old(ids.nextLogEntry) + 2, Info, Transferred(amount, src.number, dst.number, description))]
    && log.entries != []
    && Last(log.entries) == LogEntry(old(ids.nextLogEntry) + 2, Info, Transferred(amount, src.number, dst.number, description))
  }

  /** The log of a transfer whose withdrawal from src was refused: the
      withdrawal's own message, then the transfer's WARNING. */
  twostate predicate Stopped(src: Account, dst: Account, amount: real, ids: IdGenerator, log: EventLog)
    reads ids, log, src
  {
    log.entries == old(log.entries) + [
      WithdrawalMessage(src.kind, src.number, old(src.balance), amount).Entry(old(ids.nextLogEntry)),
      LogEntry(old(ids.nextLogEntry) + 1, Warning, TransferWithdrawalFailed(src.number, dst.number))]
  }

  /** The part of transferFunds once both accounts are found
      (Bank.cpp:139-152): withdraw from src under its own rule and, only if
      that succeeds, deposit into dst. */
  method MoveFunds(src: Account, dst: Account, amount: real, description: string, ids: IdGenerator, log: EventLog)
    returns (ok: bool)
    requires src.Consistent(ids, log) && dst.Consistent(ids, log) && amount > 0.0
    modifies src, dst, ids, log
    ensures src.Consistent(ids, log) && dst.Consistent(ids, log)
    ensures ok <==> WithdrawalAllowed(src.kind, old(src.balance), amount)
    ensures !ok ==> src.balance == old(src.balance) && src.history == old(src.history)
    ensures !ok ==> dst.balance == old(dst.balance) && dst.history == old(dst.history)
    ensures ok ==> Moved(src, dst, amount, description, ids, log)
    ensures !ok ==> Stopped(src, dst, amount, ids, log)
    ensures ok ==> src.balance >= Floor(src.kind)
    ensures old(log.entries) <= log.entries
    ensures ok ==> |log.entries| == |old(log.entries)| + 3
    ensures !ok ==> |log.entries| == |old(log.entries)| + 2
    ensures !ok ==> Last(log.entries) == LogEntry(old(ids.nextLogEntry) + 1, Warning, TransferWithdrawalFailed(src.number, dst.number))
    ensures ids.Advanced(0, 0, if ok then 2 else 0, if ok then 3 else 2)
  {
    ok := src.Withdraw(amount, TransferNote("Transfer to ", dst.number, description), ids, log);
    if ok {
      CreditTransfer(src, dst, amount, description, ids, log);
    } else {
      log.LogEvent(ids, Warning, TransferWithdrawalFailed(src.number, dst.number));
    }
  }

  /** The second half of a successful transfer (Bank.cpp:140-145): the
      deposit into dst (which cannot fail, the amount being positive) and
      the INFO message. */
  method CreditTransfer(src: Account, dst: Account, amount: real, description: string, ids: IdGenerator, log: EventLog)
    requires src.Consistent(ids, log) && dst.Consistent(ids, log) && amount > 0.0
    modifies dst, ids, log
    ensures src.Consistent(ids, log) && dst.Consistent(ids, log)
    ensures dst.balance == old(dst.balance) + amount
    ensures dst.history == old(dst.history) + [TransferIn(old(ids.nextTransaction), src.number, dst.number, amount, description)]
    ensures log.entries == old(log.entries) + [
              LogEntry(old(ids.nextLogEntry), Info, Deposited(dst.number, amount, dst.balance)),
              LogEntry(old(ids.nextLogEntry) + 1, Info, Transferred(amount, src.number, dst.number, description))]
    ensures ids.Advanced(0, 0, 1, 2)
  {
    var _ := dst.Deposit(amount, TransferNote("Transfer from ", src.number, description), ids, log);
    log.LogEvent(ids, Info, Transferred(amount, src.number, dst.number, description));
  }
}
