/** Accounts (Account.cpp) with the two variants of the source's class
    hierarchy, savings (SavingsAccount.cpp) and checking
    (CheckingAccount.cpp), as one class over a variant `Kind`. */
module Accounts {
  import opened Ids
  import opened Logging
  import opened Transactions

  datatype Kind = Savings(interestRate: real) | Checking(overdraftLimit: real)

  /** The lowest balance a withdrawal may leave behind. */
  function Floor(kind: Kind): real
  {
    match kind
    case Savings(_) => 0.0
    case Checking(limit) => -limit
  }

  /** Base rule of Account::withdraw: a positive amount no larger than the balance. */
  predicate WithinBalance(balance: real, amount: real): (admitted: bool)
    ensures admitted ==> amount > 0.0 && balance - amount >= 0.0
  {
    !(amount <= 0.0 || amount > balance)
  }

  /** CheckingAccount::withdraw: a positive amount not beyond balance plus limit. */
  predicate WithinOverdraft(balance: real, limit: real, amount: real): (admitted: bool)
    ensures admitted ==> amount > 0.0 && balance - amount >= -limit
  {
    !(amount <= 0.0) && !(balance + limit < amount)
  }

  /** The single dispatch point for the withdrawal policy: either way, a
      positive amount that reaches down at most to the variant's floor. */
  predicate WithdrawalAllowed(kind: Kind, balance: real, amount: real): (admitted: bool)
    ensures admitted <==> 0.0 < amount <= balance - Floor(kind)
  {
    match kind
    case Savings(_) => WithinBalance(balance, amount)
    case Checking(limit) => WithinOverdraft(balance, limit, amount)
  }

  /** A permitted withdrawal never takes the balance below the floor. */
  lemma WithdrawalKeepsFloor(kind: Kind, balance: real, amount: real)
    requires WithdrawalAllowed(kind, balance, amount)
    ensures balance - amount >= Floor(kind)
    ensures amount > 0.0
  {
  }

  /** Withdrawing exactly balance + limit from a checking account succeeds and
      leaves the balance at the floor; one cent more is refused. */
  lemma OverdraftBoundary(balance: real, limit: real)
    requires balance + limit > 0.0
    ensures WithdrawalAllowed(Checking(limit), balance, balance + limit)
    ensures balance - (balance + limit) == Floor(Checking(limit))
    ensures !WithdrawalAllowed(Checking(limit), balance, balance + limit + 0.01)
  {
  }

  /** The worked examples of the two policies: savings 100, withdraw 150 fails;
      checking 100 with limit 100, withdraw 250 fails and 150 leaves -50. */
  lemma WithdrawalExamples(rate: real)
    ensures !WithdrawalAllowed(Savings(rate), 100.0, 150.0)
    ensures !WithdrawalAllowed(Checking(100.0), 100.0, 250.0)
    ensures WithdrawalAllowed(Checking(100.0), 100.0, 150.0) && 100.0 - 150.0 == -50.0
  {
  }

  /** What one monthly maintenance adds to the balance: the interest
      balance * rate for savings when that is positive (the deposit of a
      non-positive amount fails), nothing for checking. */
  function MonthlyGain(kind: Kind, balance: real): (gain: real)
    ensures gain >= 0.0
    ensures gain > 0.0 ==> kind.Savings? && gain == balance * kind.interestRate
  {
    match kind
    case Savings(rate) => if balance * rate > 0.0 then balance * rate else 0.0
    case Checking(_) => 0.0
  }

  /** Positive interest compounds the balance by (1 + rate), e.g. 1000 at 0.01
      becomes 1010; non-positive interest leaves it as it was. */
  lemma MonthlyGainCompounds(rate: real, balance: real)
    ensures balance * rate > 0.0 ==> balance + MonthlyGain(Savings(rate), balance) == balance * (1.0 + rate)
    ensures balance * rate <= 0.0 ==> balance + MonthlyGain(Savings(rate), balance) == balance
    ensures 1000.0 + MonthlyGain(Savings(0.01), 1000.0) == 1010.0
  {
  }

  /** Maintenance never lowers a balance, so it keeps any floor. */
  lemma MonthlyGainNonNegative(kind: Kind, balance: real)
    ensures MonthlyGain(kind, balance) >= 0.0
  {
  }

  /** The record a successful interest deposit appends. */
  predicate IsInterestRecord(t: Transaction, accountNumber: string, interest: real)
  {
    t.kind == Deposit && t.amount == interest && t.accountNumber == accountNumber
    && t.description == "Monthly Interest"
  }

  /** The effect of one monthly maintenance on an account's balance and history. */
  predicate MaintenanceEffect(kind: Kind, accountNumber: string, balance0: real, history0: seq<Transaction>,
                              balance1: real, history1: seq<Transaction>)
  {
    var gain := MonthlyGain(kind, balance0);
    && balance1 == balance0 + gain
    && if gain > 0.0 then
         |history1| == |history0| + 1 && history1[..|history0|] == history0
         && IsInterestRecord(history1[|history0|], accountNumber, gain)
       else history1 == history0
  }

  /** The messages one monthly maintenance logs for an account holding
      `balance`: for savings, the interest deposit's INFO and then INFO for
      the interest when balance * rate is positive, otherwise the deposit's
      WARNING and then ERROR; for checking, one INFO. */
  function MaintenanceMessages(kind: Kind, accountNumber: string, balance: real): (messages: seq<Message>)
    ensures |messages| == if kind.Savings? then 2 else 1
    ensures messages[|messages| - 1].level == Info <==> kind.Checking? || MonthlyGain(kind, balance) > 0.0
  {
    match kind
    case Savings(rate) =>
      var interest := balance * rate;
      if interest > 0.0 then
        [Message(Info, Deposited(accountNumber, interest, balance + interest)),
         Message(Info, InterestApplied(accountNumber, interest, balance + interest))]
      else
        [Message(Warning, DepositRejected(accountNumber, interest)),
         Message(Error, InterestFailed(accountNumber))]
    case Checking(_) => [Message(Info, CheckingMaintenance(accountNumber))]
  }

  /** The one message a withdrawal of amount from an account holding
      balance logs: for savings, INFO on success and a WARNING on refusal;
      for checking, a WARNING for a non-positive amount, a WARNING for an
      amount beyond balance plus limit, and on success a WARNING when the
      new balance is negative, otherwise INFO. */
  function WithdrawalMessage(kind: Kind, accountNumber: string, balance: real, amount: real): (m: Message)
    ensures m.level == Info <==> WithdrawalAllowed(kind, balance, amount) && balance - amount >= 0.0
  {
    match kind
    case Savings(_) =>
      if WithinBalance(balance, amount) then Message(Info, Withdrew(accountNumber, amount, balance - amount))
      else Message(Warning, WithdrawalRejected(accountNumber, amount, balance))
    case Checking(limit) =>
      if amount <= 0.0 then Message(Warning, WithdrawalInvalidAmount(accountNumber, amount))
      else if balance + limit < amount then Message(Warning, OverdraftLimitExceeded(accountNumber, amount, balance + limit))
      else if balance - amount < 0.0 then Message(Warning, OverdraftIncurred(accountNumber, balance - amount))
      else Message(Info, Withdrew(accountNumber, amount, balance - amount))
  }

  /** The second log message of an account's construction, per variant. */
  function CreatedEvent(kind: Kind, accountNumber: string, ownerId: string): Event
  {
    match kind
    case Savings(rate) => SavingsAccountCreated(accountNumber, ownerId, rate)
    case Checking(limit) => CheckingAccountCreated(accountNumber, ownerId, limit)
  }

  class Account {
    const number: string
    const owner: string
    const kind: Kind
    /** The account counter value the number was formed from. */
    ghost const serial: nat
    ghost const initialBalance: real
    var balance: real
    var history: seq<Transaction>

    /** The ledger identity: the balance is the initial balance plus the
        deposits minus the withdrawals recorded in the history, and every
        record belongs to this account and carries a positive amount. */
    ghost predicate Valid()
      reads this
    {
      && number == AccountNumberFor(serial)
      && balance == initialBalance + Net(history)
      && forall k :: 0 <= k < |history| ==>
           history[k].accountNumber == number && history[k].amount > 0.0 && history[k].kind != Transfer
    }

    /** Valid, its history numbered below the transaction counter, and the
        shared log well numbered: what every operation needs and keeps. */
    ghost predicate Consistent(ids: IdGenerator, log: EventLog)
      reads this, ids, log
    {
      Valid() && IdsIncreasing(history, ids.nextTransaction) && log.Valid(ids.nextLogEntry)
    }

    /** The constructors of Account and of its two subclasses: take the next
        account number, start with the given balance and an empty history,
        and log the creation twice (base class, then variant). */
    constructor (ids: IdGenerator, log: EventLog, owner: string, initialBalance: real, kind: Kind)
      requires log.Valid(ids.nextLogEntry)
      modifies ids, log
      ensures Consistent(ids, log)
      ensures serial == old(ids.nextAccount) && number == AccountNumberFor(serial)
      ensures this.owner == owner && this.kind == kind
      ensures balance == initialBalance && history == []
      ensures ids.Advanced(1, 0, 0, 2)
      ensures log.entries == old(log.entries) + [
                LogEntry(old(ids.nextLogEntry), Info, AccountCreated(number, owner, initialBalance)),
                LogEntry(old(ids.nextLogEntry) + 1, Info, CreatedEvent(kind, number, owner))]
    {
      var n := ids.TakeAccountSerial();
      serial := n;
      number := AccountNumberFor(n);
      this.owner := owner;
      this.kind := kind;
      this.initialBalance := initialBalance;
      balance := initialBalance;
      history := [];
      new;
      log.LogEvent(ids, Info, AccountCreated(number, owner, initialBalance));
      log.LogEvent(ids, Info, CreatedEvent(kind, number, owner));
    }

    /** addTransaction: append one record numbered by the transaction counter. */
    method AddTransaction(kind: TransactionType, amount: real, description: string, ids: IdGenerator)
      requires IdsIncreasing(history, ids.nextTransaction)
      modifies this`history, ids
      ensures IdsIncreasing(history, ids.nextTransaction)
      ensures history == old(history) + [Transaction(old(ids.nextTransaction), kind, amount, number, description)]
      ensures ids.Advanced(0, 0, 1, 0)
    {
      var t := NewTransaction(ids, kind, amount, number, description);
      IdsIncreasingAppend(history, old(ids.nextTransaction), t);
      history := history + [t];
    }

    /** Account::deposit. */
    method Deposit(amount: real, description: string, ids: IdGenerator, log: EventLog) returns (ok: bool)
      requires Consistent(ids, log)
      modifies this, ids, log
      ensures Consistent(ids, log)
      ensures ok <==> amount > 0.0
      ensures ok ==> balance == old(balance) + amount
      ensures ok ==> history == old(history) + [Transaction(old(ids.nextTransaction), TransactionType.Deposit, amount, number, description)]
      ensures !ok ==> balance == old(balance) && history == old(history)
      ensures balance >= old(balance)
      ensures ids.Advanced(0, 0, if ok then 1 else 0, 1)
      ensures ok ==> log.entries == old(log.entries) + [LogEntry(old(ids.nextLogEntry), Info, Deposited(number, amount, balance))]
      ensures !ok ==> log.entries == old(log.entries) + [LogEntry(old(ids.nextLogEntry), Warning, DepositRejected(number, amount))]
    {
      if amount <= 0.0 {
        log.LogEvent(ids, Warning, DepositRejected(number, amount));
        return false;
      }
      NetAppend(history, Transaction(ids.nextTransaction, TransactionType.Deposit, amount, number, description));
      balance := balance + amount;
      AddTransaction(TransactionType.Deposit, amount, description, ids);
      log.LogEvent(ids, Info, Deposited(number, amount, balance));
      ok := true;
    }

    /** Account::withdraw, the no-overdraft rule that savings accounts use. */
    method WithdrawWithinBalance(amount: real, description: string, ids: IdGenerator, log: EventLog) returns (ok: bool)
      requires Consistent(ids, log)
      modifies this, ids, log
      ensures Consistent(ids, log)
      ensures ok <==> WithinBalance(old(balance), amount)
      ensures ok ==> balance == old(balance) - amount && balance >= 0.0
      ensures ok ==> history == old(history) + [Transaction(old(ids.nextTransaction), Withdrawal, amount, number, description)]
      ensures !ok ==> balance == old(balance) && history == old(history)
      ensures ids.Advanced(0, 0, if ok then 1 else 0, 1)
      ensures ok ==> log.entries == old(log.entries) + [LogEntry(old(ids.nextLogEntry), Info, Withdrew(number, amount, balance))]
      ensures !ok ==> log.entries == old(log.entries) + [LogEntry(old(ids.nextLogEntry), Warning, WithdrawalRejected(number, amount, balance))]
    {
      if amount <= 0.0 || amount > balance {
        log.LogEvent(ids, Warning, WithdrawalRejected(number, amount, balance));
        return false;
      }
      NetAppend(history, Transaction(ids.nextTransaction, Withdrawal, amount, number, description));
      balance := balance - amount;
      AddTransaction(Withdrawal, amount, description, ids);
      log.LogEvent(ids, Info, Withdrew(number, amount, balance));
      ok := true;
    }

    /** CheckingAccount::withdraw: the balance may go down to -overdraftLimit;
        the success message is a WARNING exactly when the result is negative. */
    method WithdrawWithinOverdraft(amount: real, description: string, ids: IdGenerator, log: EventLog) returns (ok: bool)
      requires kind.Checking?
      requires Consistent(ids, log)
      modifies this, ids, log
      ensures Consistent(ids, log)
      ensures ok <==> WithinOverdraft(old(balance), kind.overdraftLimit, amount)
      ensures ok ==> balance == old(balance) - amount && balance >= -kind.overdraftLimit
      ensures ok ==> history == old(history) + [Transaction(old(ids.nextTransaction), Withdrawal, amount, number, description)]
      ensures !ok ==> balance == old(balance) && history == old(history)
      ensures ids.Advanced(0, 0, if ok then 1 else 0, 1)
      ensures amount <= 0.0 ==>
        log.entries == old(log.entries) + [LogEntry(old(ids.nextLogEntry), Warning, WithdrawalInvalidAmount(number, amount))]
      ensures amount > 0.0 && !ok ==>
        log.entries == old(log.entries) + [LogEntry(old(ids.nextLogEntry), Warning,
                                                    OverdraftLimitExceeded(number, amount, balance + kind.overdraftLimit))]
      ensures ok && balance < 0.0 ==>
        log.entries == old(log.entries) + [LogEntry(old(ids.nextLogEntry), Warning, OverdraftIncurred(number, balance))]
      ensures ok && balance >= 0.0 ==>
        log.entries == old(log.entries) + [LogEntry(old(ids.nextLogEntry), Info, Withdrew(number, amount, balance))]
    {
      if amount <= 0.0 {
        log.LogEvent(ids, Warning, WithdrawalInvalidAmount(number, amount));
        return false;
      }
      var limit := kind.overdraftLimit;
      if balance + limit < amount {
        log.LogEvent(ids, Warning, OverdraftLimitExceeded(number, amount, balance + limit));
        return false;
      }
      NetAppend(history, Transaction(ids.nextTransaction, Withdrawal, amount, number, description));
      balance := balance - amount;
      AddTransaction(Withdrawal, amount, description, ids);
      if balance < 0.0 {
        log.LogEvent(ids, Warning, OverdraftIncurred(number, balance));
      } else {
        log.LogEvent(ids, Info, Withdrew(number, amount, balance));
      }
      ok := true;
    }

    /** The virtual withdraw: savings use the base rule, checking the
        overdraft rule. Either way a refusal changes nothing, a success
        subtracts the amount, appends one WITHDRAWAL record and leaves the
        balance at or above the variant's floor, and exactly the variant's
        one message is logged. */
    method Withdraw(amount: real, description: string, ids: IdGenerator, log: EventLog) returns (ok: bool)
      requires Consistent(ids, log)
      modifies this, ids, log
      ensures Consistent(ids, log)
      ensures ok <==> WithdrawalAllowed(kind, old(balance), amount)
      ensures ok ==> balance == old(balance) - amount && balance >= Floor(kind)
      ensures ok ==> history == old(history) + [Transaction(old(ids.nextTransaction), Withdrawal, amount, number, description)]
      ensures !ok ==> balance == old(balance) && history == old(history)
      ensures ids.Advanced(0, 0, if ok then 1 else 0, 1)
      ensures |log.entries| == |old(log.entries)| + 1 && old(log.entries) <= log.entries
      ensures log.entries == old(log.entries) + [WithdrawalMessage(kind, number, old(balance), amount).Entry(old(ids.nextLogEntry))]
    {
      ghost var m := WithdrawalMessage(kind, number, balance, amount);
      match kind
      case Savings(_) =>
        ok := WithdrawWithinBalance(amount, description, ids, log);
        assert log.entries == old(log.entries) + [m.Entry(old(ids.nextLogEntry))];
      case Checking(_) =>
        ok := WithdrawWithinOverdraft(amount, description, ids, log);
        assert log.entries == old(log.entries) + [m.Entry(old(ids.nextLogEntry))];
    }

    /** What applyInterest leaves behind on a savings account: a positive
        interest balance * rate is one "Monthly Interest" DEPOSIT record,
        numbered by the transaction counter, and two INFO messages; a
        non-positive one changes nothing but the log, which gets the
        deposit's WARNING and then an ERROR. */
    twostate predicate InterestOutcome(ids: IdGenerator, log: EventLog)
      reads this, ids, log
    {
      && kind.Savings?
      && var interest := old(balance) * kind.interestRate;
         && (interest > 0.0 ==>
               && history == old(history) + [Transaction(old(ids.nextTransaction), TransactionType.Deposit, interest, number, "Monthly Interest")]
               && log.entries == old(log.entries) + [
                    LogEntry(old(ids.nextLogEntry), Info, Deposited(number, interest, balance)),
                    LogEntry(old(ids.nextLogEntry) + 1, Info, InterestApplied(number, interest, balance))])
         && (interest <= 0.0 ==>
               && balance == old(balance) && history == old(history)
               && log.entries == old(log.entries) + [
                    LogEntry(old(ids.nextLogEntry), Warning, DepositRejected(number, interest)),
                    LogEntry(old(ids.nextLogEntry) + 1, Error, InterestFailed(number))])
    }

    /** SavingsAccount::applyInterest: deposit balance * rate as
        "Monthly Interest"; report success at INFO and failure (a
        non-positive interest) at ERROR. */
    method ApplyInterest(ids: IdGenerator, log: EventLog)
      requires kind.Savings?
      requires Consistent(ids, log)
      modifies this, ids, log
      ensures Consistent(ids, log)
      ensures MaintenanceEffect(kind, number, old(balance), old(history), balance, history)
      ensures InterestOutcome(ids, log)
      ensures ids.Advanced(0, 0, if MonthlyGain(kind, old(balance)) > 0.0 then 1 else 0, 2)
    {
      var interest := balance * kind.interestRate;
      assert MonthlyGain(kind, balance) == if interest > 0.0 then interest else 0.0;
      var ok := Deposit(interest, "Monthly Interest", ids, log);
      ghost var deposited := log.entries;
      if ok {
        log.LogEvent(ids, Info, InterestApplied(number, interest, balance));
      } else {
        log.LogEvent(ids, Error, InterestFailed(number));
      }
      PushTwo(old(log.entries), deposited, log.entries);
    }

    /** The virtual performMonthlyMaintenance: interest for savings, only a
        log message for checking. */
    method PerformMonthlyMaintenance(ids: IdGenerator, log: EventLog)
      requires Consistent(ids, log)
      modifies this, ids, log
      ensures Consistent(ids, log)
      ensures MaintenanceEffect(kind, number, old(balance), old(history), balance, history)
      ensures kind.Savings? ==> InterestOutcome(ids, log)
      ensures kind.Checking? ==> balance == old(balance) && history == old(history)
      ensures kind.Checking? ==> log.entries == old(log.entries) + [LogEntry(old(ids.nextLogEntry), Info, CheckingMaintenance(number))]
      ensures old(log.entries) <= log.entries
      ensures log.entries == old(log.entries) + Numbered(old(ids.nextLogEntry), MaintenanceMessages(kind, number, old(balance)))
      ensures ids.Advanced(0, 0, if MonthlyGain(kind, old(balance)) > 0.0 then 1 else 0, |MaintenanceMessages(kind, number, old(balance))|)
    {
      ghost var messages := MaintenanceMessages(kind, number, balance);
      match kind
      case Savings(_) =>
        ApplyInterest(ids, log);
        assert Numbered(old(ids.nextLogEntry), messages) == log.entries[|old(log.entries)|..];
      case Checking(_) =>
        log.LogEvent(ids, Info, CheckingMaintenance(number));
        assert Numbered(old(ids.nextLogEntry), messages) == log.entries[|old(log.entries)|..];
    }
  }
}
