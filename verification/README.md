# bankcpp ledger, modelled in Dafny

This project models the account-balance ledger of the bankcpp library:

- **Accounts.** Savings and checking accounts hold a balance and an append-only transaction history. `deposit` and `withdraw` guard on `amount <= 0`, on `amount > balance` (savings) and on `balance + limit < amount` (checking).
- **Customers.** Each customer owns an ordered list of accounts.
- **Bank.** The bank keeps a customer directory and creates accounts. It looks accounts up customer by customer, transfers funds between two accounts, and runs a monthly maintenance sweep that pays savings interest.
- **Numbering and logging.** Four static counters number accounts (`ACC` from 200000), customers (`CUS` from 10000), transactions (from 1001) and log entries (from 1). A process-wide event log receives a message at every step.

The model keeps the source's imperative form:

- `Account`, `Customer`, `Bank`, `EventLog` and `IdGenerator` are classes whose methods update fields in place.
- The counters are the fields of one `IdGenerator` object. The log is one `EventLog` object. The bank holds both and passes them down, as the source reaches them through statics and `DataManager::getInstance()`.
- The source's two account subclasses become one `Account` class over a `Kind = Savings(rate) | Checking(limit)`. The single dispatch points are `Withdraw` and `PerformMonthlyMaintenance`.

Amounts are exact reals. A log entry keeps its id, its level and a structured `Event` that carries the facts the source formats into its message text.

What is proved:

- Every account satisfies the ledger identity *balance = initial balance + deposits − withdrawals*, and every operation preserves it.
- Ids drawn from the counters are strictly increasing and never repeat. No two accounts of the bank share a number and no two customers share an id (`DirectoryNumbersUnique`, `CustomerIdsUnique`).
- A refused deposit, withdrawal or transfer changes no balance and no history. A successful one appends exactly the records the source appends. Either way the log gains exactly the entries the source logs, in order.
- Each withdrawal policy keeps its floor: 0 for savings, −limit for checking.
- `transferFunds`:
  - succeeds exactly when the amount is positive, both numbers are found and the source's own withdrawal rule admits the amount;
  - refuses in the source's order, each refusal with its own message;
  - conserves the sum of all balances;
  - never takes an account below its floor.
- `runMonthlyMaintenance` applies exactly one maintenance step to every account, in customer-then-account order. Its log is exactly the opening message, each account's own maintenance messages in that order, and the closing message.
- The bank invariant `Bank.Valid()` holds after every operation. It says that:
  - every customer and account is held once;
  - ids come from the counters;
  - every account belongs to the customer that holds it;
  - every account keeps its ledger identity.

Account creation does not check the initial balance, and neither does the source, so a new account may start below its floor. Floor preservation is stated as "if every account was within its floor before, it still is after": for customer creation, transfers and maintenance unconditionally, and for account creation when the initial balance is within the new account's floor. Starting from an empty bank, the floor theorems therefore chain through any sequence of operations whose new accounts start within their floors.

## Model

| member | source | states |
|---|---|---|
| Ids.IdGenerator.constructor | Account.cpp:7 | the four counters start at 200000 (accounts), 10000 (customers, Customer.cpp:10), 1001 (transactions, Transaction.cpp:5) and 1 (log entries, DataLogEntry.cpp:5) |
| Ids.IdGenerator.TakeAccountSerial | Account.cpp:10 | hands out the current account counter and advances it by one, leaving the other counters alone |
| Ids.IdGenerator.TakeCustomerSerial | Customer.cpp:13 | hands out the current customer counter and advances it by one, leaving the other counters alone |
| Ids.IdGenerator.TakeTransactionId | Transaction.cpp:8 | hands out the current transaction counter and advances it by one, leaving the other counters alone |
| Ids.IdGenerator.TakeLogEntryId | DataLogEntry.cpp:8 | hands out the current log-entry counter and advances it by one, leaving the other counters alone |
| Ids.DecimalString | Account.cpp:10 | the rendering of a counter value is a non-empty string of decimal digits, one digit long exactly for values below 10 |
| Ids.DecimalStringInjective | Account.cpp:10 | distinct counter values render as distinct digit strings |
| Ids.AccountNumbersDistinct | Account.cpp:7-10 | "ACC" numbers formed from distinct counter values are distinct |
| Ids.CustomerIdsDistinct | Customer.cpp:10-13 | "CUS" ids formed from distinct counter values are distinct |
| Logging.LevelName | DataLogEntry.cpp:27-31 | every level's name is a word of at least four upper-case letters |
| Logging.LevelNamesDistinct | DataLogEntry.cpp:27-31 | the level-to-name map sends INFO, WARNING and ERROR to three distinct names |
| Logging.NewLogEntry | DataLogEntry.cpp:7-8 | a new entry carries the current entry counter, which advances by one, and exactly the given level and description |
| Logging.EventLog.constructor | DataManager.cpp:4-6 | the log starts empty |
| Logging.EventLog.LogEvent | DataManager.cpp:13-15 | appends exactly one entry, with the given level and description and the next entry id; earlier entries are unchanged; ids stay strictly increasing |
| Logging.EventLog.GetAllLogs | DataManager.cpp:20-23 | returns the current log unchanged, its ids strictly increasing |
| Logging.EventLog.ClearLogs | DataManager.cpp:25-28 | leaves the log empty |
| Transactions.NewTransaction | Transaction.cpp:7-9 | a record takes the current transaction counter, which advances by one, and keeps exactly the type, amount, account number and description given |
| Transactions.TotalOfAppend | Account.cpp:70-72 | appending a record adds its amount to the total of its own type and to no other type's total |
| Transactions.NetAppend | Account.cpp:44-45 | a DEPOSIT record raises deposits-minus-withdrawals by its amount, a WITHDRAWAL record lowers it by its amount |
| Transactions.IdsIncreasingAppend | Transaction.cpp:8 | a record numbered by the counter keeps a history's ids strictly increasing and below the advanced counter |
| Accounts.WithinBalance | Account.cpp:54 | the base rule admits only a positive amount that leaves the balance at or above 0 |
| Accounts.WithinOverdraft | CheckingAccount.cpp:17-33 | the overdraft rule admits only a positive amount that leaves the balance at or above −limit |
| Accounts.WithdrawalAllowed | CheckingAccount.cpp:16-33 | the variant's rule admits an amount exactly when 0 < amount ≤ balance − floor (Account.cpp:54 for savings) |
| Accounts.WithdrawalMessage | CheckingAccount.cpp:16-50 | the one message a withdrawal logs (Account.cpp:53-68 for savings) is INFO exactly when the rule admits the amount and the new balance is not negative; every refusal and every overdraft is a WARNING |
| Accounts.MonthlyGain | SavingsAccount.cpp:24-32 | the balance increase of one maintenance is never negative, and positive only for savings, where it is balance × rate |
| Accounts.MaintenanceMessages | SavingsAccount.cpp:24-45 | savings log two messages, checking one (CheckingAccount.cpp:52-59); the last is INFO exactly for checking or when interest was positive |
| Accounts.WithdrawalKeepsFloor | CheckingAccount.cpp:26-35 | a withdrawal either policy admits is positive and leaves the balance at or above the floor (0 for savings, −limit for checking) |
| Accounts.OverdraftBoundary | CheckingAccount.cpp:26-33 | withdrawing exactly balance + limit from a checking account is admitted and lands on −limit; a cent more is refused |
| Accounts.WithdrawalExamples | Account.cpp:54 | savings 100, withdraw 150 is refused; checking 100 with limit 100, withdraw 250 is refused and withdraw 150 leaves −50 |
| Accounts.MonthlyGainCompounds | SavingsAccount.cpp:26-32 | positive interest takes the balance to balance × (1 + rate), e.g. 1000 at 0.01 to 1010; non-positive interest leaves it |
| Accounts.MonthlyGainNonNegative | SavingsAccount.cpp:24-39 | monthly maintenance never lowers a balance |
| Accounts.Account.constructor | Account.cpp:9-18 | a new account takes "ACC" + the account counter, which advances; it starts with the given balance and an empty history; it logs the base message and then the variant's message (CheckingAccount.cpp:4-10, SavingsAccount.cpp:11-17) |
| Accounts.Account.AddTransaction | Account.cpp:70-72 | appends exactly one record with the next transaction id, this account's number and the given type, amount and description |
| Accounts.Account.Deposit | Account.cpp:36-51 | succeeds iff amount > 0; on success the balance rises by amount, one DEPOSIT record is appended and INFO is logged; on failure balance and history are unchanged and WARNING is logged; the ledger identity is kept |
| Accounts.Account.WithdrawWithinBalance | Account.cpp:53-68 | succeeds iff 0 < amount ≤ balance; on success the balance drops by amount (staying ≥ 0), one WITHDRAWAL record is appended and INFO is logged; on failure nothing changes and WARNING is logged |
| Accounts.Account.WithdrawWithinOverdraft | CheckingAccount.cpp:16-50 | succeeds iff amount > 0 and balance + limit ≥ amount, with separate WARNINGs for the two refusals; on success the balance drops by amount (staying ≥ −limit) and one WITHDRAWAL record is appended; the success message is a WARNING iff the new balance is negative, otherwise INFO |
| Accounts.Account.Withdraw | Account.cpp:53-68 | the virtual withdraw: savings use the base rule, checking the overdraft override (CheckingAccount.cpp:16-50); it succeeds iff the variant's rule admits the amount; on success it subtracts the amount, appends one WITHDRAWAL record and leaves the balance at or above the floor; a refusal changes nothing; exactly one entry is logged, the variant's WithdrawalMessage for the old balance |
| Accounts.Account.ApplyInterest | SavingsAccount.cpp:24-39 | deposits balance × rate as "Monthly Interest": if positive, the balance rises by it, one DEPOSIT record with the next transaction id is appended, and INFO Deposited then INFO InterestApplied are logged; otherwise balance and history are unchanged and WARNING then ERROR are logged |
| Accounts.Account.PerformMonthlyMaintenance | SavingsAccount.cpp:42-45 | savings: exactly ApplyInterest's outcome (the same record, its id, and the same two log entries in each case); checking: balance and history unchanged, one INFO message (CheckingAccount.cpp:52-59) |
| Customers.AccountWithNumber | Customer.cpp:58-65 | the first account of the list with the given number, or none exactly when no account has it |
| Customers.Customer.constructor | Customer.cpp:12-21 | a new customer takes "CUS" + the customer counter, which advances; no accounts yet; one INFO message |
| Customers.Customer.AddAccount | Customer.cpp:39-52 | a present account is appended at the end with INFO; an absent one leaves the list unchanged with WARNING |
| Customers.Customer.GetAccounts | Customer.cpp:54-56 | the accounts in insertion order |
| Customers.Customer.GetAccount | Customer.cpp:58-65 | the loop returns the first account with the number, or none, changing nothing |
| Banking.CustomerWithId | Bank.cpp:31-38 | the first customer with the id, or none exactly when no customer has it |
| Banking.CustomerWithName | Bank.cpp:40-47 | the first customer with the name, or none exactly when no customer has it |
| Banking.FindInDirectory | Bank.cpp:89-97 | the account found by asking each customer in turn has the number and is listed; none exactly when no listed account has the number |
| Banking.DirectoryNumbersUnique | Account.cpp:7-10 | no two accounts of the directory share a number |
| Banking.Bank.CustomerIdsUnique | Customer.cpp:10-13 | no two customers of the directory share an id |
| Banking.Bank.LookupFindsEveryCustomer | Bank.cpp:31-38 | looking up any customer's own id finds exactly that customer |
| Banking.LookupFindsEveryAccount | Bank.cpp:89-97 | looking up any listed account's own number finds exactly that account |
| Banking.DirectorySearchOrder | Bank.cpp:89-107 | the customer-by-customer search finds the same account as a first-match search over the getAllAccounts listing |
| Banking.TransferNote | Bank.cpp:139-140 | a transfer record's description starts with the prefix and the other account's number, and is exactly those two when the description is empty |
| Banking.TransferOut | Bank.cpp:139 | the source's transfer record lowers the ledger's deposits-minus-withdrawals by the amount |
| Banking.TransferIn | Bank.cpp:140 | the destination's transfer record raises the ledger's deposits-minus-withdrawals by the amount |
| Banking.TransferRefusal | Bank.cpp:113-137 | transferFunds refuses (WARNING for the amount, then ERROR for the source, then ERROR for the destination) exactly when the amount is non-positive or a number is not found |
| Banking.MoveFunds | Bank.cpp:139-152 | succeeds iff the source's rule admits the amount; then the source drops and the destination rises by amount, each with one record, and exactly three entries are logged: the withdrawal's own message, the deposit's INFO and the transfer INFO; otherwise neither account changes and exactly two entries are logged: the withdrawal's refusal and the transfer WARNING |
| Banking.CreditTransfer | Bank.cpp:140-145 | the deposit into the destination of a positive amount always succeeds: one DEPOSIT record, balance up by amount, then the INFO transfer message |
| Banking.Bank.constructor | Bank.cpp:7-12 | an empty directory that satisfies the invariant, and one INFO message |
| Banking.Bank.CreateCustomer | Bank.cpp:20-29 | exactly one new customer, appended at the end of the directory, with the given details and the next "CUS" id; the set of accounts and every existing customer unchanged; two INFO messages (the constructor's, then the registration); the invariant is kept, and every account stays within its floor if it was before |
| Banking.Bank.GetCustomer | Bank.cpp:31-38 | the loop returns the first customer with the id, or none, changing nothing |
| Banking.Bank.GetCustomerByName | Bank.cpp:40-47 | the loop returns the first customer with the name, or none, changing nothing |
| Banking.Bank.GetAllCustomers | Bank.cpp:49-55 | the customers in registration order |
| Banking.Bank.CreateAccount | Bank.cpp:59-72 | an unknown customer gets no account, no account is added anywhere, and ERROR is logged; otherwise a fresh account is numbered from the counter, owned by the first customer with the id and appended to that customer's list, and the invariant is kept; if every account was within its floor and the initial balance is within the new account's floor, every account still is |
| Banking.Bank.RefuseAccount | Bank.cpp:61-67 | refusing a creation changes only the log, by one ERROR entry, and keeps the floors |
| Banking.Bank.OpenAccount | Bank.cpp:68-71 | the new account is fresh, appended to customer k's list, with three INFO messages in order |
| Banking.Bank.AttachAccount | Bank.cpp:70 | a new account numbered above every listed one joins the end of customer k's list and keeps the invariant |
| Banking.Bank.CreateSavingsAccount | Bank.cpp:59-72 | CreateAccount for a savings account with the given rate; floors kept when the initial balance is at least 0 |
| Banking.Bank.CreateCheckingAccount | Bank.cpp:74-87 | CreateAccount for a checking account with the given limit; floors kept when the initial balance is at least −limit |
| Banking.Bank.CustomerAppendKeepsValid | Bank.cpp:23-27 | appending a customer with no accounts and a fresh id, touching nothing else, keeps the bank invariant |
| Banking.Bank.GrowthKeepsFloors | Bank.cpp:59-87 | a directory that only gained accounts, each within its floor, and changed no listed balance keeps every account within its floor |
| Banking.Bank.GetAccount | Bank.cpp:89-97 | the loop asks each customer in order and returns the first hit, which is FindInDirectory's result |
| Banking.Bank.GetAllAccounts | Bank.cpp:99-107 | the nested loops list every account exactly once, in customer-then-account order |
| Banking.Bank.TransferFunds | Bank.cpp:112-153 | succeeds iff the amount is positive, both numbers are found and the source's rule admits it; a refusal logs exactly its one message and changes no account; a failed withdrawal changes no account and logs exactly the withdrawal's refusal then the transfer WARNING; a success moves amount from source to destination with one record each and logs exactly the withdrawal's message, the deposit's INFO and the transfer INFO; the total balance and the floors are kept |
| Banking.Bank.RefuseTransfer | Bank.cpp:113-137 | a refused transfer logs its one message and changes no account |
| Banking.Bank.TransferFound | Bank.cpp:139-152 | a transfer between two found accounts keeps the invariant, the total and the floors, with TransferFunds' outcome, its log entries included |
| Banking.Bank.MoveBetween | Bank.cpp:139-152 | MoveFunds on two listed accounts, with its exact log entries on success and on failure, keeps the invariant, the total balance and the floors |
| Banking.Bank.LogBankEvent | Bank.cpp:158-161 | a message of the bank's own adds one log entry and changes no account |
| Banking.Bank.TransferKeepsTotal | Bank.cpp:139-140 | moving an amount between two listed accounts, or within one, keeps the sum of all balances |
| Banking.Bank.MoveKeepsBank | Bank.cpp:139-145 | a completed or failed transfer keeps the invariant, the total balance and the floors |
| Banking.Bank.LedgerChangeKeepsFloors | Bank.cpp:139-140 | accounts that end at or above their floor or their old balance keep every account within its floor |
| Banking.Bank.RunMonthlyMaintenance | Bank.cpp:157-170 | every account's maintenance applied exactly once against its balance and history before the sweep; the log gains exactly the INFO opening message, then every account's own maintenance messages in customer-then-account order (each for the balance it held before the sweep), then the INFO closing message, all numbered consecutively; the transaction counter advances by the number of accounts that earned interest, the account and customer counters not at all; the invariant and the floors are kept |
| Banking.SweepMessagesInOrder | Bank.cpp:162-166 | the sweep's log holds, for every position p of the customer-then-account listing, the messages of the accounts before p immediately followed by the messages of the account at p |
| Banking.Bank.MaintainAllCustomers | Bank.cpp:162-166 | the outer loop: after customer i, every account of customers before i has been maintained and every later one is untouched, and the log holds exactly the maintenance messages of the accounts before it, in order |
| Banking.Bank.MaintainCustomer | Bank.cpp:163-165 | the inner loop: every account of customer i maintained once, in the customer's order, each logging its own messages after those of the accounts before it |
| Banking.Bank.MaintainAccount | Bank.cpp:164 | one account's maintenance changes that account as performMonthlyMaintenance does, appends exactly its messages to the sweep's log, and advances the sweep past its position, keeping the invariant |
| Banking.Bank.SweepStep | Bank.cpp:164 | when only the account at position k changed, as maintenance changes it, every account up to k is maintained and every later one untouched |
| Banking.Bank.SweepStarts | Bank.cpp:162 | before the sweep every account holds the balance and history of the snapshot |
| Banking.Bank.CloseMaintenance | Bank.cpp:167-170 | the closing INFO message is appended, numbered on from the sweep's messages, and no account changes |
| Banking.Bank.AccountAt | Bank.cpp:162-164 | the j-th account of customer i is at position Offset(i) + j of the customer-then-account listing |
| Banking.Bank.MaintenanceKeepsFloors | Bank.cpp:157-170 | maintenance never takes an account below its floor |

## Left out

- Floating point: amounts, balances and interest are exact reals. `double` rounding and `std::to_string` of doubles are not modelled.
- Timestamps: the `Date` member of transactions and log entries is not modelled. Clock reads are I/O.
- Output: the `operator<<` printers and the console echo in `DataManager::logEvent` are not modelled.
- Concurrency: the `std::atomic` counters and the `DataManager` mutex are plain single-threaded fields.
- Counter width: the source's counters are `std::atomic<long long>` (Account.cpp:7, Customer.cpp:10, Transaction.cpp:5, DataLogEntry.cpp:5). The model's counters are unbounded `nat`, so 64-bit overflow after 2^63 draws is not modelled, and distinctness of ids holds only below that bound in the source.
- Singletons: `DataManager::getInstance()` and the static counters are one `EventLog` and one `IdGenerator` object, shared by the bank and passed to every operation. "Always the same instance" is the identity of those objects.
- Message text: log entries carry a structured `Event` instead of the formatted string.
- Ownership: the `unique_ptr` ownership of customers and accounts is the ghost footprint `Repr` in the bank's invariant.
- main.cpp and InvalidAccount.cpp are not part of this model. Lookups return `Option` instead of a null pointer.
- Getters: the getters of `Account`, `Customer`, `Transaction`, `DataLogEntry` and `Bank::getName` are the fields themselves.
- TRANSFER records: the TRANSFER transaction type exists but no operation creates one. A transfer is recorded as one WITHDRAWAL and one DEPOSIT.
- Banking.Bank.TransferFunds: the two accounts are looked up with the function `FindInDirectory` rather than by calling the `GetAccount` method. `GetAccount`'s contract proves the two equal.
- Banking.Bank.CreateAccount: the customer is looked up with the function `CustomerWithId` rather than by calling the `GetCustomer` method. `GetCustomer`'s contract proves the two equal.
- Logging.EventLog.GetAllLogs: the counter bound it takes is a ghost parameter used only to state the numbering of the snapshot.
