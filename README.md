# Bank ledger core, modelled in Dafny

This project models the ledger engine of a small banking application written
in Python. The engine is made of two managers and three record classes:

- `BankSystem` (`project/models/bank_system.py`) keeps a dict of accounts and
  a dict of transactions, both keyed by id. It creates accounts, deposits,
  withdraws and transfers money, and answers read-only queries: accounts of a
  user, lookups by id and by account number, newest-first transaction lists,
  a windowed summary and system statistics.
- `Account` (`project/models/account.py`) holds a balance and guards every
  change to it: amounts that are not positive are refused, and so are
  withdrawals and transfers above the balance.
- `Transaction` (`project/models/transaction.py`) is a record with a type, a
  status that starts PENDING, a fee and a reference number "TXN" + six digits.
- `AuthManager` (`project/utils/auth.py`) and `User`
  (`project/models/user.py`) form the identity store. It keeps a dict of users
  keyed by id, refuses a username that any user already has, checks passwords
  by comparing SHA-256 digests, refuses inactive users at login, and creates a
  default administrator when the store is empty.

Layout, one module per source file, plus two shared modules:

| file | module | models |
|---|---|---|
| `common.dfy` | `Common` | `Option`/`Result`, the insertion-ordered Python `dict` (`Dict<V>`), `str(n)` for naturals |
| `json.dfy` | `Json` | the dictionaries `to_dict` writes and `from_dict` reads, and the lookups `from_dict` makes |
| `account.dfy` | `Accounts` | `Account` |
| `transaction.dfy` | `Transactions` | `TransactionType`, `TransactionStatus`, `Transaction` |
| `user.dfy` | `Users` | `User` |
| `auth.dfy` | `Auth` | `AuthManager` |
| `bank_system.dfy` | `Ledger` | `BankSystem` |

How the model is built:

- `Account`, `Transaction`, `User`, `AuthManager` and `BankSystem` are
  classes. Their methods update fields in place and say so in `modifies`
  clauses.
- Each record class has a `Data()` snapshot datatype (`AccountData`,
  `TransactionData`, `UserData`). The managers state their effects through
  *tables*: `AccountTable()` and `UserTable()` map each key of the dict to
  the field values of the object stored there.
- Every ledger operation is then proved against value-level specification
  functions on those tables: `Credit`, `Debit`, `Put`, `FirstLogin`,
  `FirstWithUsername`, `FirstActiveWithNumber`. Lemmas about those functions
  state conservation, solvency and uniqueness.
- A Python dict keeps insertion order. `Dict<V>` therefore pairs a key
  sequence with a map: the first-match loops (`authenticate_user`,
  `get_account_by_number`, `get_user_by_username`) and `values()` follow that
  order. Assigning to a key that is already present keeps its position.
- Money is `real`. Instants are integers in microseconds.
- Results of `uuid4()`, `random.randint` and `datetime.now()` are parameters.
  The range preconditions are the ones the source fixes
  (`MinAccountNumberDraw`..`MaxAccountNumberDraw`,
  `MinReferenceDraw`..`MaxReferenceDraw`). One new transaction takes its
  id, reference draw and instant as one `TxnDraw`.
- The SHA-256 digest is `Users.Sha256Hex`, an uninterpreted function. The
  model uses only the fact that it is a function.

Behaviour the code has that a reader might not expect:

- A transfer to the source account's own number is not refused by the
  engine. `transfer_to` on one object takes the amount off and puts it back,
  and two COMPLETED records are still logged. Only the user interface refuses
  such a transfer. `Ledger.SelfTransfer` and the contract of
  `Ledger.BankSystem.Transfer` state this.
- The status setters overwrite the status whatever it was. COMPLETED, FAILED
  and CANCELLED are not terminal.
- Account numbers are never checked for uniqueness. `get_account_by_number`
  returns the first active account in dict order with that number.
- `create_account` accepts any initial balance, negative included. The
  "Initial deposit" record is logged only for a positive one.
- `deposit` and `withdraw` look accounts up by id, so inactive accounts can
  be used. `transfer` may also take money from an inactive source; only the
  destination must be active.
- The `else` branch of `deposit` that logs a FAILED deposit cannot run:
  `amount > 0` was checked before `account.deposit`. The model marks that
  branch unreachable with `assert false`.

## Model

| member | source | states |
|---|---|---|
| Common.DecimalRoundTrip | project/models/account.py:32 | `int(str(n)) == n` for every natural `n`: the decimal text of a draw reads back as the draw |
| Accounts.GenerateAccountNumber | project/models/account.py:28-32 | for a draw in [1000000000, 9999999999] the account number is exactly ten decimal digits, the first not '0', and parses back to the draw |
| Accounts.Account.constructor | project/models/account.py:9-19 | a new account holds the given fields, is active, and has daily limit 50000 and monthly limit 500000 |
| Accounts.Account.CreateAccount | project/models/account.py:21-26 | the new account has the given id, owner, type and initial balance (unchecked), and the number generated from the draw |
| Accounts.Account.Deposit | project/models/account.py:34-39 | succeeds exactly when amount > 0; then the balance grows by the amount, otherwise it is unchanged |
| Accounts.Account.Withdraw | project/models/account.py:41-46 | succeeds exactly when 0 < amount <= balance; then the balance shrinks by the amount and stays >= 0, otherwise it is unchanged |
| Accounts.Account.TransferTo | project/models/account.py:48-55 | the guard of withdraw; on success the source loses and a distinct target gains the amount, the pair's sum is unchanged, and a transfer to the same object leaves its balance as it was |
| Accounts.Account.GetBalance | project/models/account.py:57-59 | returns the current balance, and reading it changes nothing |
| Accounts.Account.SetTransactionLimits | project/models/account.py:61-64 | only the two limit fields change, to the given values |
| Accounts.Account.FromDictObject | project/models/account.py:80-94 | succeeds exactly when the record parses; the new object then holds exactly the parsed field values |
| Accounts.AccountToDict | project/models/account.py:66-78 | the record has exactly the nine keys of a stored account |
| Accounts.Account.ToDict | project/models/account.py:66-78 | the record has exactly the nine account keys, and `from_dict` reads it back as this account's field values, whatever the current instant |
| Accounts.FromDictToDict | project/models/account.py:66-94 | `from_dict(to_dict(a))` reproduces every field of an account |
| Accounts.FromDictDefaults | project/models/account.py:91-93 | a record without `is_active` and the limits loads as active with the default limits |
| Transactions.ParseTransactionType | project/models/transaction.py:6-10 | `TransactionType(s)` finds the member whose value is `s`, and fails exactly when no member has that value |
| Transactions.ParseTransactionStatus | project/models/transaction.py:12-16 | `TransactionStatus(s)` finds the member whose value is `s`, and fails exactly when no member has that value |
| Transactions.EnumRoundTrip | project/models/transaction.py:6-16 | every type and status is recovered from its `.value` string |
| Transactions.ReferenceNumber | project/models/transaction.py:42-46 | for a draw in [100000, 999999] the reference is "TXN" and six decimal digits, nine characters, whose digits parse back to the draw |
| Transactions.Transaction.constructor | project/models/transaction.py:21-34 | a new transaction holds the given fields, is PENDING, has fee 0 and the reference number of the draw |
| Transactions.Transaction.CompleteTransaction | project/models/transaction.py:48-50 | the status becomes COMPLETED whatever it was; no other field changes |
| Transactions.Transaction.FailTransaction | project/models/transaction.py:52-54 | the status becomes FAILED whatever it was; no other field changes |
| Transactions.Transaction.CancelTransaction | project/models/transaction.py:56-58 | the status becomes CANCELLED whatever it was; no other field changes |
| Transactions.Transaction.AddFee | project/models/transaction.py:60-62 | the fee is overwritten with the amount; no other field changes |
| Transactions.Transaction.FromDictObject | project/models/transaction.py:80-94 | succeeds exactly when the record parses; the new object then holds exactly the parsed field values |
| Transactions.TransactionToDict | project/models/transaction.py:64-77 | the record has exactly the ten keys of a stored transaction |
| Transactions.Transaction.ToDict | project/models/transaction.py:64-77 | the record has exactly the ten transaction keys, and `from_dict` reads it back as this transaction's field values, whatever the instant and reference draw |
| Transactions.FromDictToDict | project/models/transaction.py:64-94 | `from_dict(to_dict(t))` reproduces every field, status, reference number and fee included |
| Transactions.FromDictDefaults | project/models/transaction.py:87-93 | with only the required keys, `from_dict` gives description "", no target, the current instant, PENDING, a fresh reference number and fee 0 |
| Users.HashPassword | project/models/user.py:28-31 | the stored credential is the SHA-256 hex digest of the password alone: no salt, so equal passwords give equal digests |
| Users.User.constructor | project/models/user.py:9-19 | a new user holds the given fields, is active and has never logged in |
| Users.User.CreateUser | project/models/user.py:21-26 | the stored credential is the digest of the password, not the password, and the password verifies afterwards |
| Users.User.VerifyPassword | project/models/user.py:33-35 | true exactly when the stored digest equals the digest of the candidate password |
| Users.User.UpdateLastLogin | project/models/user.py:37-39 | only the last login changes, to the given instant |
| Users.User.FromDictObject | project/models/user.py:55-69 | succeeds exactly when the record parses; the new object then holds exactly the parsed field values |
| Users.UserToDict | project/models/user.py:41-53 | the record has exactly the nine keys of a stored user |
| Users.User.ToDict | project/models/user.py:41-53 | the record has exactly the nine user keys, and `from_dict` reads it back as this user's field values, whatever the current instant |
| Users.FromDictToDict | project/models/user.py:41-69 | `from_dict(to_dict(u))` reproduces every field, a null last login included |
| Users.FromDictDefaults | project/models/user.py:67-68 | a record without `last_login` and `is_active` loads as an active user who never logged in |
| Auth.FirstLogin | project/utils/auth.py:30-37 | the user it finds matches the username, verifies the password and is active, and it finds none exactly when no user from that position on does |
| Auth.FirstLoginIsFirst | project/utils/auth.py:32-37 | no user before the one `FirstLogin` finds can log in with those credentials: it is the first match in dict order |
| Auth.FirstWithUsername | project/utils/auth.py:56-61 | the user it finds has exactly that username, and it finds none exactly when no user from that position on has it |
| Auth.FirstWithUsernameIsFirst | project/utils/auth.py:58-61 | no user before the one `FirstWithUsername` finds has that username: it is the first match in dict order |
| Auth.UsernameTakenIffFound | project/utils/auth.py:41-44 | a username is held by some user, active or not, exactly when the registration scan finds it |
| Auth.RegisterKeepsUsernamesUnique | project/utils/auth.py:39-50 | storing a user whose username nobody has keeps usernames unique and makes that username taken |
| Auth.DeactivatedCannotLogIn | project/utils/auth.py:76-84 | once a user's active flag is cleared, the login search never returns that user |
| Auth.AuthManager.constructor | project/utils/auth.py:10-16 | a non-empty loaded store is kept as is; an empty one ends up holding exactly the default administrator |
| Auth.AuthManager.CreateDefaultAdmin | project/utils/auth.py:18-28 | adds exactly the user "admin" with role "admin", the digest of "admin123" and the fixed email and phone |
| Auth.AuthManager.AuthenticateUser | project/utils/auth.py:30-37 | returns the first user in dict order who can log in, or none exactly when no user can; only that user's last login changes |
| Auth.AuthManager.FindLogin | project/utils/auth.py:32-37 | the search loop returns the key `FirstLogin` names |
| Auth.AuthManager.Store | project/utils/auth.py:48 | `self.users[id] = user`: the user table gains or replaces exactly that key, with that user's field values |
| Auth.AuthManager.RecordLogin | project/utils/auth.py:34 | the user table changes only at that key, and only in the last login |
| Auth.AuthManager.RegisterUser | project/utils/auth.py:39-50 | refused exactly when the username is taken; otherwise exactly one user with the given fields and the digest of the password is stored, the store grows by one under a new id, and unique usernames stay unique |
| Auth.AuthManager.GetUser | project/utils/auth.py:52-54 | finds a user exactly when the id is a key, and then the one stored there |
| Auth.AuthManager.GetUserByUsername | project/utils/auth.py:56-61 | returns the first user in dict order with exactly that username, and none exactly when no user has it |
| Auth.AuthManager.FindUsername | project/utils/auth.py:56-61 | the search loop returns the key `FirstWithUsername` names, and none exactly when the username is free |
| Auth.AuthManager.DeactivateUser | project/utils/auth.py:76-84 | fails exactly for an unknown id; otherwise only that user's active flag is cleared |
| Auth.AuthManager.ChangePassword | project/utils/auth.py:90-98 | fails exactly for an unknown id or an old password that does not verify, with nothing changed; otherwise only that user's digest changes, to the digest of the new password |
| Ledger.CreditBalances | project/models/bank_system.py:53-99 | crediting one account changes the money held by exactly the amount, and the active total by the amount when the account is active |
| Ledger.TransferConservesMoney | project/models/account.py:48-55 | a transfer leaves the sum of all balances unchanged, whether or not source and destination are the same |
| Ledger.TransferActiveBalance | project/models/bank_system.py:186-197 | a transfer to an active account leaves the statistics' total balance unchanged when the source is active, and raises it by the amount when the source is inactive |
| Ledger.SelfTransfer | project/models/account.py:53-54 | a transfer from an account to itself leaves every balance as it was |
| Ledger.CreditKeepsSolvent | project/models/account.py:34-46 | a deposit, or a withdrawal of at most the balance, keeps every balance >= 0 |
| Ledger.TransferKeepsSolvent | project/models/account.py:48-55 | a transfer the source balance covers keeps every balance >= 0 |
| Ledger.CreateAccountKeepsSolvent | project/models/bank_system.py:18-21 | a new account keeps every balance >= 0 when its initial balance is >= 0 (the source does not check this) |
| Ledger.FirstActiveWithNumber | project/models/bank_system.py:42-47 | the account it finds is active and has that number, and it finds none exactly when no account from that position on is both |
| Ledger.FirstActiveWithNumberIsFirst | project/models/bank_system.py:44-46 | no account before the one `FirstActiveWithNumber` finds is an active account with that number: it is the first match in dict order |
| Ledger.ActiveAccountsOf | project/models/bank_system.py:38-40 | holds exactly the active accounts of that user in the list, each as many times as the list holds it, and no other |
| Ledger.OfAccount | project/models/bank_system.py:138-141 | holds exactly the transactions of that account in the list, each as many times as the list holds it, and no other |
| Ledger.SortNewestFirst | project/models/bank_system.py:143 | the result is a permutation of the input, ordered newest first |
| Ledger.Prefix | project/models/bank_system.py:144 | Python's `s[:limit]`: a prefix of `min(limit, len)` elements, or `len + limit` of them (at least 0) for a negative limit, so a sub-multiset of the input |
| Ledger.NewestTransactions | project/models/bank_system.py:143-144 | newest first, a sub-multiset of the input (nothing repeated more often than the input holds it), as many as the slice allows, and nothing left out is newer than anything kept |
| Ledger.TransactionSummary | project/models/bank_system.py:152-184 | the net flow is total deposits minus total withdrawals |
| Ledger.CompletedSumPermutation | project/models/bank_system.py:162-175 | the sum of completed in-window amounts of a type does not depend on the order of the log |
| Ledger.SummaryIgnoresOrder | project/models/bank_system.py:157-184 | the summary's totals and net flow are the same for any ordering of the same transactions |
| Ledger.SummaryAfterRecord | project/models/bank_system.py:157-179 | logging one transaction under a new id adds its amount to the total of its type exactly when it completed inside the window, and adds one to the count exactly when it is inside the window |
| Common.CountValuesWhere | project/models/bank_system.py:188-189 | counting the values of a dict that satisfy a test gives the number of keys whose value satisfies it |
| Ledger.Stats | project/models/bank_system.py:186-197 | the total balance is the sum over active accounts, and the user and account counts are exactly the numbers of active users and active accounts in the dicts |
| Ledger.BankSystem.constructor | project/models/bank_system.py:12-16 | the engine starts from the three loaded collections unchanged |
| Ledger.BankSystem.Settle | project/models/bank_system.py:31-32 | the status is set to COMPLETED or FAILED and the log stores the record under its id; no account and no user changes |
| Ledger.BankSystem.StoreAccount | project/models/bank_system.py:21 | `self.accounts[id] = account`: the dict stores the object under its id, so the account table gains or replaces exactly that key, with that account's field values |
| Ledger.BankSystem.CreateAccount | project/models/bank_system.py:18-36 | exactly one account is stored, the returned object itself, with the given initial balance, and exactly one completed "Initial deposit" of that amount is logged exactly when it is positive; the users are untouched |
| Ledger.BankSystem.GetUserAccounts | project/models/bank_system.py:38-40 | exactly the stored accounts of that user that are active, each as many times as the dict's values hold it |
| Ledger.BankSystem.GetAccountByNumber | project/models/bank_system.py:42-47 | the first active account in dict order with that number, none exactly when no active account has it |
| Ledger.BankSystem.GetAccountById | project/models/bank_system.py:49-51 | finds an account exactly when the id is a key, active or not, and then the one stored there |
| Ledger.BankSystem.DepositInto | project/models/bank_system.py:65 | seen from the account table, `account.deposit` credits only that key |
| Ledger.BankSystem.WithdrawFrom | project/models/bank_system.py:89 | seen from the account table, `account.withdraw` debits only that key, exactly when the balance covers the amount |
| Ledger.BankSystem.TransferBetween | project/models/bank_system.py:115 | seen from the account table, `transfer_to` debits the source key and then credits the destination key, and changes nothing when refused |
| Ledger.BankSystem.Deposit | project/models/bank_system.py:53-75 | refused with nothing changed or logged for an unknown id or an amount <= 0; otherwise only that balance grows by the amount and exactly one completed DEPOSIT is logged; the users are untouched |
| Ledger.BankSystem.Withdraw | project/models/bank_system.py:77-99 | refused with nothing changed or logged for an unknown id or an amount <= 0; an amount above the balance logs exactly one FAILED WITHDRAWAL and changes no balance; otherwise that balance shrinks by the amount and one completed WITHDRAWAL is logged; the users are untouched |
| Ledger.BankSystem.TransferFound | project/models/bank_system.py:109-134 | past the guards: one FAILED TRANSFER and no balance change when the source balance does not cover the amount; otherwise the money moves and a completed TRANSFER naming the destination and a completed DEPOSIT naming the source are logged |
| Ledger.BankSystem.Transfer | project/models/bank_system.py:101-134 | refused with nothing changed or logged for an unknown source id, a number no active account has, or an amount <= 0; otherwise as `TransferFound`, the destination being the first active account with that number; the users are untouched |
| Ledger.BankSystem.GetAccountTransactions | project/models/bank_system.py:136-144 | only that account's transactions, a sub-multiset of them, newest first, as many as the slice `[:limit]` keeps (`len + limit`, at least 0, for a negative limit), none left out newer than one kept |
| Ledger.BankSystem.GetAllTransactions | project/models/bank_system.py:146-150 | logged transactions, a sub-multiset of the log, newest first, as many as the slice `[:limit]` keeps (`len + limit`, at least 0, for a negative limit), none left out newer than one kept |
| Ledger.BankSystem.GetTransactionSummary | project/models/bank_system.py:152-184 | over the log, the net flow is total deposits minus total withdrawals |
| Ledger.BankSystem.GetSystemStats | project/models/bank_system.py:186-197 | the total balance is the sum over active accounts, the user and account counts are the numbers of active users and active accounts, and the transaction count is the number of logged transactions |

## Left out

- Persistence (`project/utils/data_manager.py`, every `save_*` and `load_*` call): file I/O. The constructors take the loaded collections as parameters, and the `save_*` calls are omitted.
- `AuthManager.update_user`: it sets arbitrary attributes by name through `setattr`, which has no static counterpart.
- `AuthManager.get_all_users`: it returns the users dict itself; the model exposes that dict as the field `users`.
- The `__str__` methods: display text only.
- Floating-point arithmetic: balances and amounts are exact `real` numbers, so rounding drift is not modelled.
- ISO-8601 text: an instant is an integer and `JTime(t)` stands for its `isoformat()` string. Formatting and parsing of that text are not modelled.
- The defaults of keyword arguments (`role="customer"`, `description=""`, `limit=50` of `get_account_transactions`, `limit=100` of `get_all_transactions`, `days=30`, `initial_balance=0.0`): callers pass every argument.
- Accounts.Account.FromDictObject: `from_dict` keeps whatever JSON value `is_active` or a limit holds, and `float()` accepts integers and numeric strings. The model accepts only a JSON boolean or number there and reports any other value as an error. It also rejects a non-string `account_id`, `user_id`, `account_number` or `account_type`, which Python would store unchanged.
- Users.User.FromDictObject: the same narrowing for `is_active`, and a non-string `user_id`, `username`, `email`, `phone`, `role` or `password_hash` is rejected where Python would store it unchanged.
- Transactions.Transaction.FromDictObject: the same narrowing for `amount`, `fee` and the string fields.
- Ledger.BankSystem.Settle: the transaction log holds field-value snapshots. Python stores the `Transaction` object itself, so a caller that later mutates a returned object would change the log too. The engine never does this after storing a record.
- Ledger.SortNewestFirst: it is a stable insertion sort, like Python's `list.sort`. Stability (ties keep dict order) is not stated; the contract gives ordering and permutation only.
- Ledger.ActiveAccountsOf: the filtered list keeps list order, as the list comprehension does; the contract states which elements appear and how often, not their order.
- Ledger.OfAccount: the filtered list keeps list order, as the list comprehension does; the contract states which elements appear and how often, not their order.
- Ledger.BankSystem.GetUserAccounts: the filtered list keeps dict order, as the list comprehension does; the contract states which accounts appear and how often, not their order.
- The invariant "every balance >= 0" is stated as preservation lemmas on the account table (`CreditKeepsSolvent`, `TransferKeepsSolvent`, `CreateAccountKeepsSolvent`), not as a class invariant. The source does not keep it for a negative initial balance.
- SHA-256: `Users.Sha256Hex` is uninterpreted, so nothing about collisions or digest format is stated.
