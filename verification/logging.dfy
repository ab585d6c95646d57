/** Log entries (DataLogEntry.cpp) and the append-only event log
    (DataManager.cpp). */
module Logging {
  import opened Ids

  datatype LogLevel = Info | Warning | Error

  /** The level-to-name table used when an entry is printed. */
  function LevelName(level: LogLevel): (name: string)
    ensures |name| >= 4 && forall k :: 0 <= k < |name| ==> 'A' <= name[k] <= 'Z'
  {
    match level
    case Info => "INFO"
    case Warning => "WARNING"
    case Error => "ERROR"
  }

  /** The table sends distinct levels to distinct names. */
  lemma LevelNamesDistinct(a: LogLevel, b: LogLevel)
    requires a != b
    ensures LevelName(a) != LevelName(b)
  {
  }

  /** What a log message reports. The source formats these facts into text;
      the model keeps the facts and leaves the wording out. */
  datatype Event =
    | BankInitialized(bankName: string)
    | CustomerCreated(customerId: string, name: string)
    | CustomerRegistered(customerId: string, name: string)
    | AccountCreated(accountNumber: string, ownerId: string, initialBalance: real)
    | SavingsAccountCreated(accountNumber: string, ownerId: string, interestRate: real)
    | CheckingAccountCreated(accountNumber: string, ownerId: string, overdraftLimit: real)
    | SavingsCreationFailed(customerId: string)
    | CheckingCreationFailed(customerId: string)
    | AccountAdded(accountNumber: string, customerId: string)
    | NullAccountRejected(customerId: string)
    | DepositRejected(accountNumber: string, amount: real)
    | Deposited(accountNumber: string, amount: real, newBalance: real)
    | WithdrawalRejected(accountNumber: string, amount: real, balance: real)
    | Withdrew(accountNumber: string, amount: real, newBalance: real)
    | WithdrawalInvalidAmount(accountNumber: string, amount: real)
    | OverdraftLimitExceeded(accountNumber: string, amount: real, available: real)
    | OverdraftIncurred(accountNumber: string, newBalance: real)
    | InterestApplied(accountNumber: string, interest: real, newBalance: real)
    | InterestFailed(accountNumber: string)
    | CheckingMaintenance(accountNumber: string)
    | TransferInvalidAmount(amount: real)
    | SourceNotFound(accountNumber: string)
    | DestinationNotFound(accountNumber: string)
    | Transferred(amount: real, fromNumber: string, toNumber: string, note: string)
    | TransferWithdrawalFailed(fromNumber: string, toNumber: string)
    | MaintenanceStarted
    | MaintenanceCompleted

  /** An immutable log record; the timestamp is not modelled. */
  datatype LogEntry = LogEntry(id: nat, level: LogLevel, description: Event)

  /** The DataLogEntry constructor: the entry takes the current entry counter,
      which is post-incremented, and keeps the level and description given. */
  method NewLogEntry(ids: IdGenerator, level: LogLevel, description: Event) returns (e: LogEntry)
    modifies ids
    ensures e.id == old(ids.nextLogEntry)
    ensures e.level == level && e.description == description
    ensures ids.Advanced(0, 0, 0, 1)
  {
    var id := ids.TakeLogEntryId();
    e := LogEntry(id, level, description);
  }

  /** Entry ids strictly increase along the log and are all below the
      counter: the last entry is numbered below the counter, and the entries
      before it below the last one. */
  ghost predicate WellNumbered(entries: seq<LogEntry>, bound: nat)
    decreases |entries|
  {
    |entries| == 0 ||
    (var last := entries[|entries| - 1];
     last.id < bound && WellNumbered(entries[..|entries| - 1], last.id))
  }

  /** A well-numbered log, read entry by entry: ids strictly increase and
      every id is below the counter. */
  lemma {:induction false} WellNumberedIds(entries: seq<LogEntry>, bound: nat)
    requires WellNumbered(entries, bound)
    ensures forall i, j :: 0 <= i < j < |entries| ==> entries[i].id < entries[j].id
    ensures forall i :: 0 <= i < |entries| ==> entries[i].id < bound
    decreases |entries|
  {
    if |entries| > 0 {
      var front, last := entries[..|entries| - 1], entries[|entries| - 1];
      WellNumberedIds(front, last.id);
      forall i | 0 <= i < |front|
        ensures entries[i] == front[i]
      {
      }
    }
  }

  /** A message as it is handed to the log: a level and an event, not yet
      numbered by the entry counter. */
  datatype Message = Message(level: LogLevel, event: Event)
  {
    function Entry(id: nat): LogEntry
    {
      LogEntry(id, level, event)
    }
  }

  /** The entries a run of messages becomes when it is logged one message
      after another, the first taking entry id `first`. */
  function Numbered(first: nat, messages: seq<Message>): (r: seq<LogEntry>)
    ensures |r| == |messages|
  {
    seq(|messages|, i requires 0 <= i < |messages| => messages[i].Entry(first + i))
  }

  /** Two single pushes make a two-entry push. */
  lemma PushTwo(entries: seq<LogEntry>, once: seq<LogEntry>, twice: seq<LogEntry>)
    requires |once| == |entries| + 1 && once[..|entries|] == entries
    requires |twice| == |once| + 1 && twice[..|once|] == once
    ensures twice == entries + [once[|entries|], twice[|once|]]
  {
  }

  /** One message logged on its own is one entry with the given id. */
  lemma NumberedSingle(first: nat, m: Message)
    ensures Numbered(first, [m]) == [m.Entry(first)]
  {
  }

  /** Logging two runs one after the other numbers the second run on from
      where the first stopped. */
  lemma NumberedAppend(prefix: seq<LogEntry>, first: nat, xs: seq<Message>, ys: seq<Message>)
    ensures prefix + Numbered(first, xs) + Numbered(first + |xs|, ys) == prefix + Numbered(first, xs + ys)
  {
    var whole, left, right := Numbered(first, xs + ys), Numbered(first, xs), Numbered(first + |xs|, ys);
    assert whole == left + right;
  }

  /** A log that holds a numbered run gains one more message at the end:
      the run, extended by that message, numbered from the same start. */
  lemma NumberedPush(after: seq<LogEntry>, entries: seq<LogEntry>, prefix: seq<LogEntry>, first: nat, xs: seq<Message>, m: Message)
    requires entries == prefix + Numbered(first, xs)
    requires after == entries + [m.Entry(first + |xs|)]
    ensures after == prefix + Numbered(first, xs + [m])
  {
    NumberedSingle(first + |xs|, m);
    NumberedAppend(prefix, first, xs, [m]);
  }

  /** A log that holds a numbered run gains a second run numbered on from
      the first: together they are the two runs joined, numbered from the
      same start. */
  lemma NumberedExtend(after: seq<LogEntry>, entries: seq<LogEntry>, prefix: seq<LogEntry>, first: nat, next: nat,
                       xs: seq<Message>, ys: seq<Message>, zs: seq<Message>)
    requires entries == prefix + Numbered(first, xs) && next == first + |xs|
    requires after == entries + Numbered(next, ys)
    requires zs == xs + ys
    ensures after == prefix + Numbered(first, zs)
  {
    NumberedAppend(prefix, first, xs, ys);
  }

  /** One message logged before a numbered run: the message followed by the
      run, numbered from the message's own number. */
  lemma NumberedPrepend(entries: seq<LogEntry>, marked: seq<LogEntry>, prefix: seq<LogEntry>, e: LogEntry, next: nat, m: Message, rest: seq<Message>)
    requires marked == prefix + [e] && e == m.Entry(e.id) && next == e.id + 1
    requires entries == marked + Numbered(next, rest)
    ensures entries == prefix + Numbered(e.id, [m] + rest)
  {
    var first := e.id;
    NumberedSingle(first, m);
    NumberedAppend(prefix, first, [m], rest);
  }

  /** The single process-wide log kept by DataManager. */
  class EventLog {
    var entries: seq<LogEntry>

    ghost predicate Valid(bound: nat)
      reads this
    {
      WellNumbered(entries, bound)
    }

    constructor ()
      ensures entries == []
    {
      entries := [];
    }

    /** Appends exactly one entry, numbered by the entry counter. */
    method LogEvent(ids: IdGenerator, level: LogLevel, description: Event)
      requires Valid(ids.nextLogEntry)
      modifies this, ids
      ensures Valid(ids.nextLogEntry)
      ensures entries == old(entries) + [LogEntry(old(ids.nextLogEntry), level, description)]
      ensures ids.Advanced(0, 0, 0, 1)
    {
      var e := NewLogEntry(ids, level, description);
      entries := entries + [e];
    }

    /** A snapshot of the log, in append order; the log is not changed. */
    method GetAllLogs(ghost bound: nat) returns (snapshot: seq<LogEntry>)
      requires Valid(bound)
      ensures snapshot == entries
      ensures forall i, j :: 0 <= i < j < |snapshot| ==> snapshot[i].id < snapshot[j].id
      ensures forall i :: 0 <= i < |snapshot| ==> snapshot[i].id < bound
    {
      WellNumberedIds(entries, bound);
      snapshot := entries;
    }

    method ClearLogs()
      modifies this
      ensures entries == []
    {
      entries := [];
    }
  }
}
