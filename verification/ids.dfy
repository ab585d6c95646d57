/** The four static counters that number accounts, customers, transactions
    and log entries, kept as the fields of one generator object. */
module Ids {

  const AccountSeed: nat := 200000
  const CustomerSeed: nat := 10000
  const TransactionSeed: nat := 1001
  const LogEntrySeed: nat := 1

  function Digit(d: nat): (c: char)
    requires d < 10
    ensures '0' <= c <= '9'
  {
    "0123456789"[d]
  }

  /** Decimal rendering of a counter value, as std::to_string writes it. */
  function DecimalString(n: nat): (s: string)
    ensures 1 <= |s|
    ensures n < 10 <==> |s| == 1
    ensures forall k :: 0 <= k < |s| ==> '0' <= s[k] <= '9'
  {
    if n < 10 then [Digit(n)] else DecimalString(n / 10) + [Digit(n % 10)]
  }

  /** Different counter values are rendered as different strings. */
  lemma {:induction false} DecimalStringInjective(a: nat, b: nat)
    requires DecimalString(a) == DecimalString(b)
    ensures a == b
  {
    var s := DecimalString(a);
    if a >= 10 {
      assert b >= 10;
      assert s[..|s| - 1] == DecimalString(a / 10) && s[..|s| - 1] == DecimalString(b / 10);
      DecimalStringInjective(a / 10, b / 10);
      assert Digit(a % 10) == s[|s| - 1] == Digit(b % 10);
    }
  }

  /** "ACC" followed by the account counter (Account.cpp). */
  function AccountNumberFor(serial: nat): string
  {
    "ACC" + DecimalString(serial)
  }

  /** "CUS" followed by the customer counter (Customer.cpp). */
  function CustomerIdFor(serial: nat): string
  {
    "CUS" + DecimalString(serial)
  }

  lemma AccountNumbersDistinct(a: nat, b: nat)
    requires a != b
    ensures AccountNumberFor(a) != AccountNumberFor(b)
  {
    if AccountNumberFor(a) == AccountNumberFor(b) {
      assert AccountNumberFor(a)[3..] == DecimalString(a);
      assert AccountNumberFor(b)[3..] == DecimalString(b);
      DecimalStringInjective(a, b);
    }
  }

  lemma CustomerIdsDistinct(a: nat, b: nat)
    requires a != b
    ensures CustomerIdFor(a) != CustomerIdFor(b)
  {
    if CustomerIdFor(a) == CustomerIdFor(b) {
      assert CustomerIdFor(a)[3..] == DecimalString(a);
      assert CustomerIdFor(b)[3..] == DecimalString(b);
      DecimalStringInjective(a, b);
    }
  }

  /** The process-wide counters. Each Take method hands out the current
      value and post-increments it, like `nextId++` on the static atomics. */
  class IdGenerator {
    var nextAccount: nat
    var nextCustomer: nat
    var nextTransaction: nat
    var nextLogEntry: nat

    constructor ()
      ensures nextAccount == AccountSeed && nextCustomer == CustomerSeed
      ensures nextTransaction == TransactionSeed && nextLogEntry == LogEntrySeed
    {
      nextAccount, nextCustomer := AccountSeed, CustomerSeed;
      nextTransaction, nextLogEntry := TransactionSeed, LogEntrySeed;
    }

    /** Each counter moved forward by the given number of draws, no more. */
    twostate predicate Advanced(accounts: nat, customers: nat, transactions: nat, logEntries: nat)
      reads this
    {
      && nextAccount == old(nextAccount) + accounts
      && nextCustomer == old(nextCustomer) + customers
      && nextTransaction == old(nextTransaction) + transactions
      && nextLogEntry == old(nextLogEntry) + logEntries
    }

    method TakeAccountSerial() returns (n: nat)
      modifies this
      ensures n == old(nextAccount)
      ensures Advanced(1, 0, 0, 0)
    {
      n := nextAccount;
      nextAccount := nextAccount + 1;
    }

    method TakeCustomerSerial() returns (n: nat)
      modifies this
      ensures n == old(nextCustomer)
      ensures Advanced(0, 1, 0, 0)
    {
      n := nextCustomer;
      nextCustomer := nextCustomer + 1;
    }

    method TakeTransactionId() returns (n: nat)
      modifies this
      ensures n == old(nextTransaction)
      ensures Advanced(0, 0, 1, 0)
    {
      n := nextTransaction;
      nextTransaction := nextTransaction + 1;
    }

    method TakeLogEntryId() returns (n: nat)
      modifies this
      ensures n == old(nextLogEntry)
      ensures Advanced(0, 0, 0, 1)
    {
      n := nextLogEntry;
      nextLogEntry := nextLogEntry + 1;
    }
  }
}
