/** Immutable transaction records (Transaction.cpp) and the ledger sums over
    an account's history. */
module Transactions {
  import opened Ids

  datatype TransactionType = Deposit | Withdrawal | Transfer

  /** One balance-affecting event; the timestamp is not modelled. The getters
      of the source are the fields. */
  datatype Transaction = Transaction(
    id: nat,
    kind: TransactionType,
    amount: real,
    accountNumber: string,
    description: string)

  /** The Transaction constructor: the record takes the current transaction
      counter, which is post-incremented, and keeps every argument as given. */
  method NewTransaction(ids: IdGenerator, kind: TransactionType, amount: real, accountNumber: string, description: string)
    returns (t: Transaction)
    modifies ids
    ensures t.id == old(ids.nextTransaction)
    ensures t.kind == kind && t.amount == amount
    ensures t.accountNumber == accountNumber && t.description == description
    ensures ids.Advanced(0, 0, 1, 0)
  {
    var id := ids.TakeTransactionId();
    t := Transaction(id, kind, amount, accountNumber, description);
  }

  /** Sum of the amounts of the records of one type. */
  function TotalOf(history: seq<Transaction>, kind: TransactionType): real
  {
    if history == [] then 0.0
    else (if history[0].kind == kind then history[0].amount else 0.0) + TotalOf(history[1..], kind)
  }

  /** Deposits minus withdrawals: the net effect of a history on the balance. */
  function Net(history: seq<Transaction>): real
  {
    TotalOf(history, Deposit) - TotalOf(history, Withdrawal)
  }

  /** Appending a record adds its amount to the total of its own type only. */
  lemma {:induction false} TotalOfAppend(history: seq<Transaction>, t: Transaction, kind: TransactionType)
    ensures TotalOf(history + [t], kind) == TotalOf(history, kind) + (if t.kind == kind then t.amount else 0.0)
  {
    if history != [] {
      assert (history + [t])[1..] == history[1..] + [t];
      TotalOfAppend(history[1..], t, kind);
    }
  }

  /** A deposit record raises the net by its amount, a withdrawal record
      lowers it by its amount. */
  lemma NetAppend(history: seq<Transaction>, t: Transaction)
    requires t.kind != Transfer
    ensures Net(history + [t]) == Net(history) + (if t.kind == Deposit then t.amount else -t.amount)
  {
    TotalOfAppend(history, t, Deposit);
    TotalOfAppend(history, t, Withdrawal);
  }

  /** Record ids strictly increase in history order and are all below the
      transaction counter. */
  ghost predicate IdsIncreasing(history: seq<Transaction>, bound: nat)
  {
    && (forall i: nat, j: nat :: i < j < |history| ==> IdAt(history, i) < IdAt(history, j))
    && (forall i: nat :: i < |history| ==> IdAt(history, i) < bound)
  }

  /** The id of the i-th record of a history. */
  ghost function IdAt(history: seq<Transaction>, i: nat): (id: nat)
    requires i < |history|
    ensures id == history[i].id
  {
    history[i].id
  }

  /** A record numbered by the counter keeps the history increasing. */
  lemma IdsIncreasingAppend(history: seq<Transaction>, bound: nat, t: Transaction)
    requires IdsIncreasing(history, bound) && t.id == bound
    ensures IdsIncreasing(history + [t], bound + 1)
  {
    var grown := history + [t];
    forall i: nat | i < |grown|
      ensures IdAt(grown, i) < bound + 1
    {
      if i < |history| { assert IdAt(history, i) < bound; }
    }
    forall i: nat, j: nat | i < j < |grown|
      ensures IdAt(grown, i) < IdAt(grown, j)
    {
      if j < |history| { assert IdAt(history, i) < IdAt(history, j); }
      else { assert IdAt(history, i) < bound; }
    }
  }
}
