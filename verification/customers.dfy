/** Customers (Customer.cpp): an id from the customer counter and an ordered
    list of owned accounts. */
module Customers {
  import opened Wrappers
  import opened Seqs
  import opened Ids
  import opened Logging
  import opened Accounts

  /** The first account in `accs` whose number is `accountNumber`, if any. */
  function AccountWithNumber(accs: seq<Account>, accountNumber: string): (r: Option<Account>)
    ensures r.Some? ==> r.value in accs && r.value.number == accountNumber
    ensures r.None? <==> forall k :: 0 <= k < |accs| ==> accs[k].number != accountNumber
  {
    match FirstIndex(accs, (a: Account) => a.number == accountNumber)
    case None => None
    case Some(k) => Some(accs[k])
  }

  class Customer {
    const id: string
    const name: string
    const address: string
    const phone: string
    /** The customer counter value the id was formed from. */
    ghost const serial: nat
    var accounts: seq<Account>

    /** Customer's constructor: "CUS" + the customer counter, which is
        post-incremented; no accounts yet. */
    constructor (ids: IdGenerator, log: EventLog, name: string, address: string, phone: string)
      requires log.Valid(ids.nextLogEntry)
      modifies ids, log
      ensures log.Valid(ids.nextLogEntry)
      ensures serial == old(ids.nextCustomer) && id == CustomerIdFor(serial)
      ensures this.name == name && this.address == address && this.phone == phone
      ensures accounts == []
      ensures ids.Advanced(0, 1, 0, 1)
      ensures log.entries == old(log.entries) + [LogEntry(old(ids.nextLogEntry), Info, CustomerCreated(id, name))]
    {
      var n := ids.TakeCustomerSerial();
      serial := n;
      id := CustomerIdFor(n);
      this.name := name;
      this.address := address;
      this.phone := phone;
      accounts := [];
      new;
      log.LogEvent(ids, Info, CustomerCreated(id, name));
    }

    /** addAccount: a present account goes at the end of the list; an absent
        one is refused with a WARNING and the list is unchanged. */
    method AddAccount(account: Account?, ids: IdGenerator, log: EventLog)
      requires log.Valid(ids.nextLogEntry)
      modifies this, ids, log
      ensures log.Valid(ids.nextLogEntry)
      ensures account != null ==> accounts == old(accounts) + [account]
      ensures account == null ==> accounts == old(accounts)
      ensures account != null ==>
        log.entries == old(log.entries) + [LogEntry(old(ids.nextLogEntry), Info, AccountAdded(account.number, id))]
      ensures account == null ==>
        log.entries == old(log.entries) + [LogEntry(old(ids.nextLogEntry), Warning, NullAccountRejected(id))]
      ensures ids.Advanced(0, 0, 0, 1)
    {
      if account != null {
        log.LogEvent(ids, Info, AccountAdded(account.number, id));
        accounts := accounts + [account];
      } else {
        log.LogEvent(ids, Warning, NullAccountRejected(id));
      }
    }

    /** getAccounts: the accounts in insertion order. */
    method GetAccounts() returns (accs: seq<Account>)
      ensures accs == accounts
    {
      accs := accounts;
    }

    /** getAccount: a read-only scan that returns the first account with the
        given number, or nothing. */
    method GetAccount(accountNumber: string) returns (r: Option<Account>)
      ensures r == AccountWithNumber(accounts, accountNumber)
    {
      var i := 0;
      while i < |accounts|
        invariant 0 <= i <= |accounts|
        invariant forall k :: 0 <= k < i ==> accounts[k].number != accountNumber
      {
        if accounts[i].number == accountNumber {
          FirstIndexUnique(accounts, (a: Account) => a.number == accountNumber, i);
          return Some(accounts[i]);
        }
        i := i + 1;
      }
      r := None;
    }
  }
}
