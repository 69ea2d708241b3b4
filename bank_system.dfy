/** project/models/bank_system.py: the ledger engine. It owns a dict of
    accounts and a dict of transactions, both keyed by id, moves money
    between the accounts and logs every attempt it gets past its guards. */
module Ledger {
  import opened Common
  import opened Transactions
  import opened Accounts
  import opened Users

  // ===== The engine's state seen as values =====

  /** The field values of the accounts of a dict, under the same keys and order. */
  function AccountTableOf(d: Dict<Account>): (t: Dict<AccountData>)
    reads d.entries.Values
    requires d.Valid()
    ensures t.Valid() && t.keys == d.keys
  {
    Dict(d.keys, map k | k in d.entries :: d.entries[k].Data())
  }

  lemma AccountTableOfPut(d: Dict<Account>, k: string, a: Account)
    requires d.Valid()
    ensures AccountTableOf(d.Put(k, a)) == AccountTableOf(d).Put(k, a.Data())
  {
    assert AccountTableOf(d.Put(k, a)).entries == AccountTableOf(d).entries[k := a.Data()];
  }

  // ----- How in-place changes to stored accounts show in the table -----

  /** No stored account changed: neither did the table. */
  twostate lemma TableUnchanged(d: Dict<Account>)
    requires d.Valid()
    requires forall k :: k in d.entries ==> unchanged(d.entries[k])
    ensures AccountTableOf(d) == old(AccountTableOf(d))
  {
  }

  /** Only the balance of the account under `changed` changed, by `delta`:
      the table is credited there. */
  twostate lemma TableCredited(d: Dict<Account>, new changed: string, new delta: real)
    requires d.Valid() && changed in d.entries
    requires forall k :: k in d.entries && k != changed ==> d.entries[k].Data() == old(d.entries[k].Data())
    requires d.entries[changed].Data() == old(d.entries[changed].Data()).(balance := old(d.entries[changed].balance) + delta)
    ensures AccountTableOf(d) == Credit(old(AccountTableOf(d)), changed, delta)
  {
    var before := old(AccountTableOf(d));
    var after := AccountTableOf(d);
    var credited := before.entries[changed := before.entries[changed].(balance := before.entries[changed].balance + delta)];
    assert after.entries.Keys == d.entries.Keys == credited.Keys;
    forall k | k in d.entries ensures after.entries[k] == credited[k] {
    }
    assert after.entries == credited;
    CreditedTable(before, after, changed, delta);
  }

  /** A table that differs from `t` only in the balance under `k`, by
      `delta`, is `t` credited there. */
  lemma CreditedTable(t: Dict<AccountData>, u: Dict<AccountData>, k: string, delta: real)
    requires t.Valid() && k in t.entries && u.keys == t.keys
    requires u.entries == t.entries[k := t.entries[k].(balance := t.entries[k].balance + delta)]
    ensures u == Credit(t, k, delta)
  {
  }

  /** Only the accounts under `from` and `to`, two different keys, changed:
      the first lost `delta` and the second gained it. */
  twostate lemma TableTransferred(d: Dict<Account>, new from: string, new to: string, new delta: real)
    requires d.Valid() && from in d.entries && to in d.entries && from != to
    requires forall k :: k in d.entries && k != from && k != to ==> d.entries[k].Data() == old(d.entries[k].Data())
    requires d.entries[from].Data() == old(d.entries[from].Data()).(balance := old(d.entries[from].balance) - delta)
    requires d.entries[to].Data() == old(d.entries[to].Data()).(balance := old(d.entries[to].balance) + delta)
    ensures AccountTableOf(d) == Credit(Debit(old(AccountTableOf(d)), from, delta), to, delta)
  {
    var before := old(AccountTableOf(d));
    var after := AccountTableOf(d);
    var moved := before.entries[from := before.entries[from].(balance := before.entries[from].balance - delta)]
                               [to := before.entries[to].(balance := before.entries[to].balance + delta)];
    assert after.entries.Keys == d.entries.Keys == moved.Keys;
    forall k | k in d.entries ensures after.entries[k] == moved[k] {
      if k != from && k != to {
        assert after.entries[k] == d.entries[k].Data() == old(d.entries[k].Data()) == before.entries[k];
      }
    }
    assert after.entries == moved;
    TransferredTable(before, after, from, to, delta);
  }

  /** A table that differs from `t` only in the balances under `from` and
      `to`, the first down by `delta` and the second up by it, is `t`
      debited at `from` and then credited at `to`. */
  lemma TransferredTable(t: Dict<AccountData>, u: Dict<AccountData>, from: string, to: string, delta: real)
    requires t.Valid() && from in t.entries && to in t.entries && from != to && u.keys == t.keys
    requires u.entries == t.entries[from := t.entries[from].(balance := t.entries[from].balance - delta)]
                                   [to := t.entries[to].(balance := t.entries[to].balance + delta)]
    ensures u == Credit(Debit(t, from, delta), to, delta)
  {
    var debited := Debit(t, from, delta);
    assert debited.entries == t.entries[from := t.entries[from].(balance := t.entries[from].balance - delta)];
  }

  /** A transfer from an account to itself leaves the table as it was. */
  lemma SelfTransfer(t: Dict<AccountData>, k: string, amount: real)
    requires t.Valid() && k in t.entries
    ensures Credit(Debit(t, k, amount), k, amount) == t
  {
    assert Credit(Debit(t, k, amount), k, amount).entries == t.entries;
  }

  // ===== Balances =====

  /** The accounts after `amount` is added to the balance stored under `k`. */
  function Credit(t: Dict<AccountData>, k: string, amount: real): (r: Dict<AccountData>)
    requires t.Valid() && k in t.entries
    ensures r.Valid() && r.keys == t.keys && k in r.entries
  {
    t.Put(k, t.entries[k].(balance := t.entries[k].balance + amount))
  }

  /** The accounts after `amount` is taken from the balance stored under `k`. */
  function Debit(t: Dict<AccountData>, k: string, amount: real): (r: Dict<AccountData>)
    requires t.Valid() && k in t.entries
    ensures r.Valid() && r.keys == t.keys && k in r.entries
  {
    Credit(t, k, -amount)
  }

  /** No account is overdrawn. */
  predicate Solvent(t: Dict<AccountData>) {
    forall k :: k in t.entries ==> t.entries[k].balance >= 0.0
  }

  function SumBalances(s: seq<AccountData>): real {
    if s == [] then 0.0 else s[0].balance + SumBalances(s[1..])
  }

  /** `sum(a.balance for a in accounts if a.is_active)` */
  function SumActiveBalances(s: seq<AccountData>): real {
    if s == [] then 0.0 else (if s[0].isActive then s[0].balance else 0.0) + SumActiveBalances(s[1..])
  }

  /** The money held by all accounts, active or not. */
  function TotalBalance(t: Dict<AccountData>): real
    requires t.Valid()
  {
    SumBalances(t.Values())
  }

  /** The money held by active accounts: the `total_balance` of the statistics. */
  function ActiveBalance(t: Dict<AccountData>): real
    requires t.Valid()
  {
    SumActiveBalances(t.Values())
  }

  /** Replacing one account changes the sum by the difference of its balances. */
  lemma {:induction false} SumBalancesUpdate(s: seq<AccountData>, i: nat, a: AccountData)
    requires i < |s|
    ensures SumBalances(s[i := a]) == SumBalances(s) - s[i].balance + a.balance
  {
    if i > 0 {
      assert s[i := a][1..] == s[1..][i - 1 := a];
      SumBalancesUpdate(s[1..], i - 1, a);
    } else {
      assert s[i := a][1..] == s[1..];
    }
  }

  /** The same for active accounts, when the replacement keeps the active flag. */
  lemma {:induction false} SumActiveBalancesUpdate(s: seq<AccountData>, i: nat, a: AccountData)
    requires i < |s| && a.isActive == s[i].isActive
    ensures SumActiveBalances(s[i := a]) == SumActiveBalances(s) + (if a.isActive then a.balance - s[i].balance else 0.0)
  {
    if i > 0 {
      assert s[i := a][1..] == s[1..][i - 1 := a];
      SumActiveBalancesUpdate(s[1..], i - 1, a);
    } else {
      assert s[i := a][1..] == s[1..];
    }
  }

  /** Crediting one account raises the money held by exactly the amount,
      and the money held by active accounts by the amount when that
      account is active. */
  lemma CreditBalances(t: Dict<AccountData>, k: string, amount: real)
    requires t.Valid() && k in t.entries
    ensures TotalBalance(Credit(t, k, amount)) == TotalBalance(t) + amount
    ensures ActiveBalance(Credit(t, k, amount)) == ActiveBalance(t) + (if t.entries[k].isActive then amount else 0.0)
  {
    var a := t.entries[k].(balance := t.entries[k].balance + amount);
    PutValues(t, k, a);
    SumBalancesUpdate(t.Values(), IndexOf(t, k), a);
    SumActiveBalancesUpdate(t.Values(), IndexOf(t, k), a);
  }

  /** Conservation: a transfer leaves the money held by all accounts
      unchanged, whether or not source and destination are the same. */
  lemma TransferConservesMoney(t: Dict<AccountData>, from: string, to: string, amount: real)
    requires t.Valid() && from in t.entries && to in t.entries
    ensures TotalBalance(Credit(Debit(t, from, amount), to, amount)) == TotalBalance(t)
  {
    CreditBalances(t, from, -amount);
    CreditBalances(Debit(t, from, amount), to, amount);
  }

  /** Between two active accounts a transfer also leaves the `total_balance`
      of the statistics unchanged. From an inactive source it raises it. */
  lemma TransferActiveBalance(t: Dict<AccountData>, from: string, to: string, amount: real)
    requires t.Valid() && from in t.entries && to in t.entries && t.entries[to].isActive
    ensures ActiveBalance(Credit(Debit(t, from, amount), to, amount))
         == ActiveBalance(t) + (if t.entries[from].isActive then 0.0 else amount)
  {
    CreditBalances(t, from, -amount);
    CreditBalances(Debit(t, from, amount), to, amount);
  }

  /** Crediting a positive amount, or debiting at most the balance, keeps
      every account solvent. */
  lemma CreditKeepsSolvent(t: Dict<AccountData>, k: string, amount: real)
    requires t.Valid() && k in t.entries && Solvent(t) && t.entries[k].balance + amount >= 0.0
    ensures Solvent(Credit(t, k, amount))
  {
  }

  /** A transfer the source balance covers keeps every account solvent,
      whether or not source and destination are the same. */
  lemma TransferKeepsSolvent(t: Dict<AccountData>, from: string, to: string, amount: real)
    requires t.Valid() && from in t.entries && to in t.entries && Solvent(t)
    requires 0.0 < amount <= t.entries[from].balance
    ensures Solvent(Credit(Debit(t, from, amount), to, amount))
  {
    CreditKeepsSolvent(t, from, -amount);
    CreditKeepsSolvent(Debit(t, from, amount), to, amount);
  }

  /** A new account with a non-negative initial balance keeps every
      account solvent. */
  lemma CreateAccountKeepsSolvent(t: Dict<AccountData>, a: AccountData)
    requires t.Valid() && Solvent(t) && a.balance >= 0.0
    ensures Solvent(t.Put(a.accountId, a))
  {
  }

  // ===== Lookups =====

  /** The key of the first account, in dict order from position `i` on,
      that is active and has this account number. */
  function FirstActiveWithNumber(t: Dict<AccountData>, number: string, i: nat): (r: Option<string>)
    requires t.Valid() && i <= |t.keys|
    ensures r.Some? ==> r.value in t.entries && t.entries[r.value].accountNumber == number && t.entries[r.value].isActive
    ensures r.None? <==> forall j :: i <= j < |t.keys| ==>
      !(t.entries[t.keys[j]].accountNumber == number && t.entries[t.keys[j]].isActive)
    decreases |t.keys| - i
  {
    if i == |t.keys| then None
    else if t.entries[t.keys[i]].accountNumber == number && t.entries[t.keys[i]].isActive then Some(t.keys[i])
    else FirstActiveWithNumber(t, number, i + 1)
  }

  /** No account before the one `FirstActiveWithNumber` finds is an active
      account with that number. */
  lemma {:induction false} FirstActiveWithNumberIsFirst(t: Dict<AccountData>, number: string, i: nat)
    requires t.Valid() && i <= |t.keys|
    ensures var r := FirstActiveWithNumber(t, number, i);
      r.Some? ==>
        exists p ::
          i <= p < |t.keys| && t.keys[p] == r.value &&
          forall j :: i <= j < p ==> !(t.entries[t.keys[j]].accountNumber == number && t.entries[t.keys[j]].isActive)
    decreases |t.keys| - i
  {
    if i < |t.keys| && !(t.entries[t.keys[i]].accountNumber == number && t.entries[t.keys[i]].isActive) {
      FirstActiveWithNumberIsFirst(t, number, i + 1);
    }
  }

  /** `get_user_accounts` over a list of accounts: the active ones of the
      user, in list order. */
  function ActiveAccountsOf(s: seq<Account>, userId: string): (r: seq<Account>)
    reads s
    ensures forall a :: a in r ==> a in s && a.userId == userId && a.isActive
    ensures forall a :: a in s && a.userId == userId && a.isActive ==> a in r
    ensures forall a :: a in s ==> multiset(r)[a] == if a.userId == userId && a.isActive then multiset(s)[a] else 0
    ensures |r| <= |s|
  {
    if s == [] then []
    else
      var head := if s[0].userId == userId && s[0].isActive then [s[0]] else [];
      assert s == [s[0]] + s[1..];
      assert multiset(s) == multiset{s[0]} + multiset(s[1..]);
      head + ActiveAccountsOf(s[1..], userId)
  }

  // ===== Transaction lists =====

  /** The transactions of one account, in list order. */
  function OfAccount(s: seq<TransactionData>, accountId: string): (r: seq<TransactionData>)
    ensures forall t :: t in r ==> t in s && t.accountId == accountId
    ensures forall t :: t in s && t.accountId == accountId ==> t in r
    ensures forall t :: multiset(r)[t] == if t.accountId == accountId then multiset(s)[t] else 0
  {
    if s == [] then []
    else
      assert s == [s[0]] + s[1..];
      (if s[0].accountId == accountId then [s[0]] else []) + OfAccount(s[1..], accountId)
  }

  /** Sorted by creation instant, newest first. */
  ghost predicate NewestFirst(s: seq<TransactionData>) {
    forall i, j :: 0 <= i < j < |s| ==> s[i].createdAt >= s[j].createdAt
  }

  /** Puts `x` in front of the first element not newer than it. */
  function Insert(x: TransactionData, s: seq<TransactionData>): (r: seq<TransactionData>)
    ensures |r| == |s| + 1
    ensures multiset(r) == multiset(s) + multiset{x}
    ensures r[0] == x || (s != [] && r[0] == s[0])
  {
    if s == [] || s[0].createdAt <= x.createdAt then [x] + s
    else
      assert s == [s[0]] + s[1..];
      [s[0]] + Insert(x, s[1..])
  }

  /** Inserting into a newest-first list keeps it newest first. */
  lemma {:induction false} InsertKeepsOrder(x: TransactionData, s: seq<TransactionData>)
    requires NewestFirst(s)
    ensures NewestFirst(Insert(x, s))
  {
    if s != [] && s[0].createdAt > x.createdAt {
      var rest := Insert(x, s[1..]);
      InsertKeepsOrder(x, s[1..]);
      assert rest[0].createdAt <= s[0].createdAt;
      assert Insert(x, s) == [s[0]] + rest;
    }
  }

  /** `list.sort(key=lambda x: x.created_at, reverse=True)`, as a stable
      insertion sort. */
  function SortNewestFirst(s: seq<TransactionData>): (r: seq<TransactionData>)
    ensures multiset(r) == multiset(s)
    ensures NewestFirst(r)
  {
    if s == [] then []
    else
      assert s == [s[0]] + s[1..];
      InsertKeepsOrder(s[0], SortNewestFirst(s[1..]));
      Insert(s[0], SortNewestFirst(s[1..]))
  }

  /** Python's `s[:limit]`: a negative limit drops that many from the end. */
  function Prefix(s: seq<TransactionData>, limit: int): (r: seq<TransactionData>)
    ensures |r| == if limit >= 0 then Min(limit, |s|) else Max(0, |s| + limit)
    ensures r == s[..|r|]
    ensures multiset(r) <= multiset(s)
  {
    var n := if limit >= 0 then Min(limit, |s|) else Max(0, |s| + limit);
    assert s == s[..n] + s[n..];
    s[..n]
  }

  function Min(a: int, b: int): int { if a <= b then a else b }
  function Max(a: int, b: int): int { if a >= b then a else b }

  /** A prefix of a newest-first list is newest first and holds the
      newest elements: whatever it leaves out is no newer than anything it keeps. */
  lemma PrefixKeepsNewest(s: seq<TransactionData>, limit: int)
    requires NewestFirst(s)
    ensures NewestFirst(Prefix(s, limit))
    ensures forall t, u :: t in s && t !in Prefix(s, limit) && u in Prefix(s, limit) ==> u.createdAt >= t.createdAt
  {
    var p := Prefix(s, limit);
    forall t, u | t in s && t !in p && u in p ensures u.createdAt >= t.createdAt {
      var j :| 0 <= j < |s| && s[j] == t;
      var i :| 0 <= i < |p| && p[i] == u;
      assert s[i] == u;
    }
  }

  /** Sequences with the same multiset have the same members. */
  lemma SameMembers(a: seq<TransactionData>, b: seq<TransactionData>)
    requires multiset(a) == multiset(b)
    ensures forall t :: t in a ==> t in b
  {
    forall t | t in a ensures t in b {
      assert t in multiset(a);
    }
  }

  /** The newest `limit` transactions of a list: sorted newest first, as
      many as the limit allows, and none left out newer than one kept. */
  function NewestTransactions(s: seq<TransactionData>, limit: int): (r: seq<TransactionData>)
    ensures NewestFirst(r)
    ensures forall t :: t in r ==> t in s
    ensures multiset(r) <= multiset(s)
    ensures |r| == if limit >= 0 then Min(limit, |s|) else Max(0, |s| + limit)
    ensures forall t, u :: t in s && t !in r && u in r ==> u.createdAt >= t.createdAt
  {
    var sorted := SortNewestFirst(s);
    SameMembers(s, sorted);
    SameMembers(sorted, s);
    assert |sorted| == |s| by {
      assert |multiset(sorted)| == |multiset(s)|;
    }
    PrefixKeepsNewest(sorted, limit);
    Prefix(sorted, limit)
  }

  // ===== Summary and statistics =====

  /** The number of microseconds in `timedelta(days=1)`. */
  const MicrosPerDay := 86_400_000_000

  predicate InWindow(t: TransactionData, start: int, end: int) {
    start <= t.createdAt <= end
  }

  /** A transaction of this type that completed inside the window. */
  predicate Counts(t: TransactionData, ty: TransactionType, start: int, end: int) {
    InWindow(t, start, end) && t.transactionType == ty && t.status == Completed
  }

  function CountInWindow(s: seq<TransactionData>, start: int, end: int): nat {
    if s == [] then 0 else (if InWindow(s[0], start, end) then 1 else 0) + CountInWindow(s[1..], start, end)
  }

  /** The amounts of the completed transactions of one type inside the window. */
  function CompletedSum(s: seq<TransactionData>, ty: TransactionType, start: int, end: int): real {
    if s == [] then 0.0 else (if Counts(s[0], ty, start, end) then s[0].amount else 0.0) + CompletedSum(s[1..], ty, start, end)
  }

  datatype Summary = Summary(
    periodDays: int,
    totalTransactions: nat,
    totalDeposits: real,
    totalWithdrawals: real,
    totalTransfers: real,
    netFlow: real)

  /** `get_transaction_summary(days)` over the logged transactions, at the
      instant `now`: the window is the `days` days up to `now`, both ends included. */
  function TransactionSummary(log: seq<TransactionData>, days: int, now: int): (r: Summary)
    ensures r.netFlow == r.totalDeposits - r.totalWithdrawals
  {
    var start := now - days * MicrosPerDay;
    var deposits := CompletedSum(log, TransactionType.Deposit, start, now);
    var withdrawals := CompletedSum(log, TransactionType.Withdrawal, start, now);
    Summary(days, CountInWindow(log, start, now), deposits, withdrawals,
            CompletedSum(log, TransactionType.Transfer, start, now), deposits - withdrawals)
  }

  /** One more transaction at the end of the log adds its amount to the
      total of its type exactly when it completed inside the window. */
  lemma {:induction false} CompletedSumAppend(s: seq<TransactionData>, t: TransactionData, ty: TransactionType, start: int, end: int)
    ensures CompletedSum(s + [t], ty, start, end) == CompletedSum(s, ty, start, end) + (if Counts(t, ty, start, end) then t.amount else 0.0)
  {
    if s != [] {
      assert (s + [t])[1..] == s[1..] + [t];
      CompletedSumAppend(s[1..], t, ty, start, end);
    }
  }

  /** Removing the element at `i` takes exactly its contribution off the sum. */
  lemma {:induction false} CompletedSumRemove(s: seq<TransactionData>, i: nat, ty: TransactionType, start: int, end: int)
    requires i < |s|
    ensures CompletedSum(s, ty, start, end)
         == (if Counts(s[i], ty, start, end) then s[i].amount else 0.0) + CompletedSum(s[..i] + s[i + 1..], ty, start, end)
  {
    if i > 0 {
      assert (s[..i] + s[i + 1..])[1..] == s[1..][..i - 1] + s[1..][i..];
      CompletedSumRemove(s[1..], i - 1, ty, start, end);
    } else {
      assert s[..i] + s[i + 1..] == s[1..];
    }
  }

  /** Removing the element at `i` removes one occurrence of it. */
  lemma RemoveAt(b: seq<TransactionData>, i: nat)
    requires i < |b|
    ensures multiset(b[..i] + b[i + 1..]) == multiset(b) - multiset{b[i]}
  {
    assert b == b[..i] + [b[i]] + b[i + 1..];
  }

  /** The totals do not depend on the order of the log. */
  lemma {:induction false} CompletedSumPermutation(a: seq<TransactionData>, b: seq<TransactionData>, ty: TransactionType, start: int, end: int)
    requires multiset(a) == multiset(b)
    ensures CompletedSum(a, ty, start, end) == CompletedSum(b, ty, start, end)
    decreases |a|
  {
    if a == [] {
      assert |b| == |multiset(b)| == 0;
    } else {
      var x := a[0];
      assert x in multiset(a);
      var i :| 0 <= i < |b| && b[i] == x;
      var rest := b[..i] + b[i + 1..];
      RemoveAt(b, i);
      assert a == [x] + a[1..];
      assert multiset(a[1..]) == multiset(a) - multiset{x};
      CompletedSumPermutation(a[1..], rest, ty, start, end);
      CompletedSumRemove(b, i, ty, start, end);
    }
  }

  lemma {:induction false} CountInWindowAppend(s: seq<TransactionData>, t: TransactionData, start: int, end: int)
    ensures CountInWindow(s + [t], start, end) == CountInWindow(s, start, end) + (if InWindow(t, start, end) then 1 else 0)
  {
    if s != [] {
      assert (s + [t])[1..] == s[1..] + [t];
      CountInWindowAppend(s[1..], t, start, end);
    }
  }

  /** Recording one transaction under a new id moves the summary by that
      transaction alone: its amount is added to the total of its type when
      it completed inside the window. */
  lemma SummaryAfterRecord(log: Dict<TransactionData>, t: TransactionData, days: int, now: int)
    requires log.Valid() && t.transactionId !in log.entries
    ensures var before := TransactionSummary(log.Values(), days, now);
            var after := TransactionSummary(log.Put(t.transactionId, t).Values(), days, now);
            var start := now - days * MicrosPerDay;
            && after.totalDeposits == before.totalDeposits + (if Counts(t, TransactionType.Deposit, start, now) then t.amount else 0.0)
            && after.totalWithdrawals == before.totalWithdrawals + (if Counts(t, TransactionType.Withdrawal, start, now) then t.amount else 0.0)
            && after.totalTransfers == before.totalTransfers + (if Counts(t, TransactionType.Transfer, start, now) then t.amount else 0.0)
            && after.totalTransactions == before.totalTransactions + (if InWindow(t, start, now) then 1 else 0)
  {
    var start := now - days * MicrosPerDay;
    PutValues(log, t.transactionId, t);
    CompletedSumAppend(log.Values(), t, TransactionType.Deposit, start, now);
    CompletedSumAppend(log.Values(), t, TransactionType.Withdrawal, start, now);
    CompletedSumAppend(log.Values(), t, TransactionType.Transfer, start, now);
    CountInWindowAppend(log.Values(), t, start, now);
  }

  /** The summary is the same for any ordering of the same transactions. */
  lemma SummaryIgnoresOrder(a: seq<TransactionData>, b: seq<TransactionData>, days: int, now: int)
    requires multiset(a) == multiset(b)
    ensures TransactionSummary(a, days, now).totalDeposits == TransactionSummary(b, days, now).totalDeposits
    ensures TransactionSummary(a, days, now).totalWithdrawals == TransactionSummary(b, days, now).totalWithdrawals
    ensures TransactionSummary(a, days, now).totalTransfers == TransactionSummary(b, days, now).totalTransfers
    ensures TransactionSummary(a, days, now).netFlow == TransactionSummary(b, days, now).netFlow
  {
    var start := now - days * MicrosPerDay;
    CompletedSumPermutation(a, b, TransactionType.Deposit, start, now);
    CompletedSumPermutation(a, b, TransactionType.Withdrawal, start, now);
    CompletedSumPermutation(a, b, TransactionType.Transfer, start, now);
  }

  datatype SystemStats = SystemStats(totalUsers: nat, totalAccounts: nat, totalBalance: real, totalTransactions: nat)

  predicate IsActiveUser(u: UserData) { u.isActive }
  predicate IsActiveAccount(a: AccountData) { a.isActive }

  /** `get_system_stats` */
  function Stats(users: Dict<UserData>, accounts: Dict<AccountData>, transactionCount: nat): (r: SystemStats)
    requires users.Valid() && accounts.Valid()
    ensures r.totalBalance == ActiveBalance(accounts)
    ensures r.totalUsers == |KeysWhere(users, IsActiveUser)|
    ensures r.totalAccounts == |KeysWhere(accounts, IsActiveAccount)|
  {
    CountValuesWhere(users, IsActiveUser);
    CountValuesWhere(accounts, IsActiveAccount);
    SystemStats(CountWhere(users.Values(), IsActiveUser), CountWhere(accounts.Values(), IsActiveAccount),
                ActiveBalance(accounts), transactionCount)
  }

  // ===== The engine =====

  /** The transaction record a ledger operation stores: the draw gives its
      id, instant and reference number; it carries no fee. */
  function Record(draw: TxnDraw, accountId: string, ty: TransactionType, amount: real,
                  description: string, target: Option<string>, status: TransactionStatus): TransactionData
    requires draw.InRange()
  {
    TransactionData(draw.id, accountId, ty, amount, description, target, draw.now,
                    status, ReferenceNumber(draw.refDraw), 0.0)
  }

  class BankSystem {
    var users: Dict<User>
    var accounts: Dict<Account>
    var transactions: Dict<TransactionData>

    ghost predicate Valid()
      reads this
    {
      users.Valid() && accounts.Valid() && transactions.Valid() && Injective(accounts)
    }

    function AccountTable(): (t: Dict<AccountData>)
      reads this`accounts, accounts.entries.Values
      requires accounts.Valid()
      ensures t.Valid() && t.keys == accounts.keys
    {
      AccountTableOf(accounts)
    }

    /** `BankSystem()` over the three collections loaded from storage. */
    constructor (users: Dict<User>, accounts: Dict<Account>, transactions: Dict<TransactionData>)
      requires users.Valid() && accounts.Valid() && transactions.Valid() && Injective(accounts)
      ensures Valid()
      ensures this.users == users && this.accounts == accounts && this.transactions == transactions
    {
      this.users := users;
      this.accounts := accounts;
      this.transactions := transactions;
    }

    /** `complete_transaction()` or `fail_transaction()` on a new record,
        then `self.transactions[t.transaction_id] = t`. The engine changes no
        record after storing it, so the log keeps the record's field values. */
    method Settle(t: Transaction, completed: bool)
      requires Valid()
      modifies this`transactions, t`status
      ensures Valid() && users == old(users) && accounts == old(accounts) && AccountTable() == old(AccountTable())
      ensures transactions == old(transactions).Put(t.transactionId, old(t.Data()).(status := if completed then Completed else Failed))
    {
      if completed {
        t.CompleteTransaction();
      } else {
        t.FailTransaction();
      }
      transactions := transactions.Put(t.transactionId, t.Data());
    }

    /** `self.accounts[a.account_id] = a`, for an account not stored yet. */
    method StoreAccount(a: Account)
      requires Valid() && a !in accounts.entries.Values
      modifies this`accounts
      ensures Valid() && accounts == old(accounts).Put(a.accountId, a)
      ensures AccountTable() == old(AccountTable()).Put(a.accountId, a.Data())
    {
      AccountTableOfPut(accounts, a.accountId, a);
      PutKeepsInjective(accounts, a.accountId, a);
      accounts := accounts.Put(a.accountId, a);
    }

    /** `create_account`: stores a new account under `accountId` (the
        `uuid4()` string) with the initial balance as given, and logs a
        completed "Initial deposit" exactly when that balance is positive. */
    method CreateAccount(userId: string, accountType: string, initialBalance: real,
                         accountId: string, numberDraw: int, now: int, txn: TxnDraw) returns (a: Account)
      requires Valid() && txn.InRange()
      requires MinAccountNumberDraw <= numberDraw <= MaxAccountNumberDraw
      modifies this
      ensures Valid() && fresh(a) && users == old(users)
      ensures accountId in accounts.entries && accounts.entries[accountId] == a
      ensures a.Data() == AccountData(accountId, userId, GenerateAccountNumber(numberDraw), accountType,
                                      initialBalance, now, true, DefaultDailyLimit, DefaultMonthlyLimit)
      ensures AccountTable() == old(AccountTable()).Put(accountId, a.Data())
      ensures transactions == if initialBalance > 0.0
        then old(transactions).Put(txn.id, Record(txn, accountId, TransactionType.Deposit, initialBalance, "Initial deposit", None, Completed))
        else old(transactions)
    {
      ghost var before := AccountTable();
      a := Account.CreateAccount(userId, accountType, initialBalance, accountId, numberDraw, now);
      ghost var data := a.Data();
      assert a.accountId == accountId;
      assert AccountTable() == before;
      StoreAccount(a);
      assert accounts.entries[accountId] == a;
      assert a.Data() == data;
      ghost var after := AccountTable();
      assert after == before.Put(accountId, data);
      if initialBalance > 0.0 {
        var t := new Transaction(txn.id, a.accountId, TransactionType.Deposit, initialBalance,
                                 "Initial deposit", None, txn.now, txn.refDraw);
        assert AccountTable() == after;
        Settle(t, true);
        assert AccountTable() == after;
      }
    }

    /** `get_account_by_id` */
    function GetAccountById(accountId: string): (r: Option<Account>)
      reads this`accounts
      ensures r.Some? <==> accountId in accounts.entries
      ensures r.Some? ==> r.value == accounts.entries[accountId]
    {
      accounts.Get(accountId)
    }

    /** `get_account_by_number`: the first active account in dict order with
        this account number. Inactive accounts are never found. */
    method GetAccountByNumber(number: string) returns (r: Option<Account>)
      requires accounts.Valid()
      ensures var k := FirstActiveWithNumber(AccountTable(), number, 0);
        && (r.Some? <==> k.Some?)
        && (k.Some? ==> r.value == accounts.entries[k.value])
      ensures r.Some? ==> r.value in accounts.entries.Values && r.value.accountNumber == number && r.value.isActive
    {
      ghost var t := AccountTable();
      var i := 0;
      while i < |accounts.keys|
        invariant 0 <= i <= |accounts.keys|
        invariant FirstActiveWithNumber(t, number, 0) == FirstActiveWithNumber(t, number, i)
      {
        var key := accounts.keys[i];
        var a := accounts.entries[key];
        assert t.entries[key] == a.Data();
        if a.accountNumber == number && a.isActive {
          assert FirstActiveWithNumber(t, number, i) == Some(key);
          assert a in accounts.entries.Values;
          return Some(a);
        }
        i := i + 1;
      }
      assert FirstActiveWithNumber(t, number, i) == None;
      return None;
    }

    /** `get_user_accounts`: the user's active accounts, in dict order. */
    function GetUserAccounts(userId: string): (r: seq<Account>)
      reads this`accounts, accounts.entries.Values
      requires accounts.Valid()
      ensures forall a :: a in r ==> a in accounts.entries.Values && a.userId == userId && a.isActive
      ensures forall a :: a in accounts.entries.Values && a.userId == userId && a.isActive ==> a in r
      ensures forall a :: a in accounts.Values() ==>
        multiset(r)[a] == if a.userId == userId && a.isActive then multiset(accounts.Values())[a] else 0
    {
      var vs := accounts.Values();
      assert forall a :: a in accounts.entries.Values ==> a in vs by {
        forall a | a in accounts.entries.Values ensures a in vs {
          var k :| k in accounts.entries && accounts.entries[k] == a;
          var j := IndexOf(accounts, k);
          assert vs[j] == a;
        }
      }
      ActiveAccountsOf(vs, userId)
    }

    /** `account.deposit(amount)` on the account stored under `key`, seen
        from the dict: only that account's balance changes. */
    method DepositInto(account: Account, ghost key: string, amount: real) returns (ok: bool)
      requires Valid() && key in accounts.entries && account == accounts.entries[key]
      modifies account
      ensures Valid() && users == old(users) && accounts == old(accounts)
      ensures ok <==> amount > 0.0
      ensures AccountTable() == if ok then Credit(old(AccountTable()), key, amount) else old(AccountTable())
    {
      ok := account.Deposit(amount);
      assert forall k :: k in accounts.entries && k != key ==> accounts.entries[k] != account;
      if ok {
        TableCredited(accounts, key, amount);
      } else {
        TableUnchanged(accounts);
      }
    }

    /** `account.withdraw(amount)` on the account stored under `key`, seen
        from the dict: only that account's balance changes. */
    method WithdrawFrom(account: Account, ghost key: string, amount: real) returns (ok: bool)
      requires Valid() && key in accounts.entries && account == accounts.entries[key]
      modifies account
      ensures Valid() && users == old(users) && accounts == old(accounts)
      ensures ok <==> 0.0 < amount <= old(AccountTable()).entries[key].balance
      ensures AccountTable() == if ok then Debit(old(AccountTable()), key, amount) else old(AccountTable())
    {
      ok := account.Withdraw(amount);
      assert forall k :: k in accounts.entries && k != key ==> accounts.entries[k] != account;
      if ok {
        TableCredited(accounts, key, -amount);
      } else {
        TableUnchanged(accounts);
      }
    }

    /** `from_account.transfer_to(to_account, amount)` on accounts stored
        under `fromKey` and `destKey`, seen from the dict: the debit then the
        credit, so that one key for both leaves its balance where it was. */
    method TransferBetween(source: Account, target: Account, ghost fromKey: string, ghost destKey: string, amount: real)
      returns (ok: bool)
      requires Valid() && fromKey in accounts.entries && destKey in accounts.entries
      requires source == accounts.entries[fromKey] && target == accounts.entries[destKey]
      modifies source, target
      ensures Valid() && users == old(users) && accounts == old(accounts)
      ensures ok <==> 0.0 < amount <= old(AccountTable()).entries[fromKey].balance
      ensures AccountTable() == if ok then Credit(Debit(old(AccountTable()), fromKey, amount), destKey, amount)
                                else old(AccountTable())
    {
      ghost var t := AccountTable();
      assert source == target <==> fromKey == destKey;
      ok := source.TransferTo(target, amount);
      forall k | k in accounts.entries && k != fromKey && k != destKey
        ensures accounts.entries[k].Data() == old(accounts.entries[k].Data())
      {
        assert accounts.entries[k] != source && accounts.entries[k] != target;
      }
      if ok && fromKey != destKey {
        assert source.Data() == old(source.Data()).(balance := old(source.balance) - amount);
        assert target.Data() == old(target.Data()).(balance := old(target.balance) + amount);
        TableTransferred(accounts, fromKey, destKey, amount);
      } else {
        TableUnchanged(accounts);
        if ok {
          SelfTransfer(t, fromKey, amount);
        }
      }
    }

    /** `deposit`: refused, with nothing changed and nothing logged, for an
        unknown account or an amount that is not positive; otherwise the
        balance grows by the amount and one completed DEPOSIT is logged. */
    method Deposit(accountId: string, amount: real, description: string, txn: TxnDraw) returns (ok: bool)
      requires Valid() && txn.InRange()
      modifies this, accounts.entries.Values
      ensures Valid() && users == old(users) && accounts == old(accounts)
      ensures ok <==> accountId in old(accounts.entries) && amount > 0.0
      ensures AccountTable() == if ok then Credit(old(AccountTable()), accountId, amount) else old(AccountTable())
      ensures transactions == if ok
        then old(transactions).Put(txn.id, Record(txn, accountId, TransactionType.Deposit, amount, description, None, Completed))
        else old(transactions)
    {
      var found := GetAccountById(accountId);
      if found.None? || amount <= 0.0 {
        return false;
      }
      ghost var before := AccountTable();
      var t := new Transaction(txn.id, accountId, TransactionType.Deposit, amount, description, None, txn.now, txn.refDraw);
      assert AccountTable() == before;
      ok := DepositInto(found.value, accountId, amount);
      if ok {
        ghost var after := AccountTable();
        Settle(t, true);
        assert AccountTable() == after;
      } else {
        // account.deposit cannot refuse an amount already known to be positive
        assert false;
      }
    }

    /** `withdraw`: refused, with nothing changed and nothing logged, for an
        unknown account or an amount that is not positive; an amount above
        the balance logs one FAILED WITHDRAWAL and changes no balance;
        otherwise the balance shrinks by the amount and one completed
        WITHDRAWAL is logged. */
    method Withdraw(accountId: string, amount: real, description: string, txn: TxnDraw) returns (ok: bool)
      requires Valid() && txn.InRange()
      modifies this, accounts.entries.Values
      ensures Valid() && users == old(users) && accounts == old(accounts)
      ensures ok <==> accountId in old(accounts.entries) && 0.0 < amount <= old(AccountTable()).entries[accountId].balance
      ensures AccountTable() == if ok then Debit(old(AccountTable()), accountId, amount) else old(AccountTable())
      ensures transactions == if accountId !in old(accounts.entries) || amount <= 0.0 then old(transactions)
        else old(transactions).Put(txn.id, Record(txn, accountId, TransactionType.Withdrawal, amount, description, None,
                                                if ok then Completed else Failed))
    {
      var found := GetAccountById(accountId);
      if found.None? || amount <= 0.0 {
        return false;
      }
      ghost var before := AccountTable();
      var t := new Transaction(txn.id, accountId, TransactionType.Withdrawal, amount, description, None, txn.now, txn.refDraw);
      assert AccountTable() == before;
      ok := WithdrawFrom(found.value, accountId, amount);
      ghost var after := AccountTable();
      Settle(t, ok);
      assert AccountTable() == after;
    }

    /** The part of `transfer` past its guards, on the accounts stored under
        `fromId` and `destKey`: the TRANSFER record is created, the money
        moves if the source balance covers it, and the record is logged as
        completed (followed by the destination's DEPOSIT record) or failed. */
    method TransferFound(source: Account, target: Account, fromId: string, ghost destKey: string,
                         amount: real, description: string, debit: TxnDraw, credit: TxnDraw) returns (ok: bool)
      requires Valid() && debit.InRange() && credit.InRange()
      requires fromId in accounts.entries && destKey in accounts.entries
      requires source == accounts.entries[fromId] && target == accounts.entries[destKey]
      modifies this`transactions, source, target
      ensures Valid() && users == old(users) && accounts == old(accounts)
      ensures ok <==> 0.0 < amount <= old(AccountTable()).entries[fromId].balance
      ensures AccountTable() == if ok then Credit(Debit(old(AccountTable()), fromId, amount), destKey, amount)
                                else old(AccountTable())
      ensures !ok ==> transactions == old(transactions).Put(debit.id,
        Record(debit, fromId, TransactionType.Transfer, amount, description, Some(target.accountId), Failed))
      ensures ok ==>
        transactions == old(transactions)
          .Put(debit.id, Record(debit, fromId, TransactionType.Transfer, amount, description,
                                Some(target.accountId), Completed))
          .Put(credit.id, Record(credit, target.accountId, TransactionType.Deposit, amount,
                                 "Transfer from " + source.accountNumber, Some(source.accountId), Completed))
    {
      var t := new Transaction(debit.id, fromId, TransactionType.Transfer, amount, description,
                               Some(target.accountId), debit.now, debit.refDraw);
      ok := TransferBetween(source, target, fromId, destKey, amount);
      ghost var after := AccountTable();
      Settle(t, ok);
      if ok {
        var d := new Transaction(credit.id, target.accountId, TransactionType.Deposit, amount,
                                 "Transfer from " + source.accountNumber, Some(source.accountId),
                                 credit.now, credit.refDraw);
        assert AccountTable() == after;
        Settle(d, true);
      }
    }

    /** `transfer`: refused, with nothing changed and nothing logged, for an
        unknown source id, a number that no active account has, or an
        amount that is not positive. An amount above the source balance logs
        one FAILED TRANSFER and changes no balance. Otherwise the source
        loses the amount, the destination gains it, and two completed
        records are logged: a TRANSFER on the source naming the destination
        and a DEPOSIT on the destination naming the source. The destination
        may be the source itself: its balance then ends where it started. */
    method Transfer(fromId: string, toNumber: string, amount: real, description: string,
                    debit: TxnDraw, credit: TxnDraw) returns (ok: bool)
      requires Valid() && debit.InRange() && credit.InRange()
      modifies this, accounts.entries.Values
      ensures Valid() && users == old(users) && accounts == old(accounts)
      ensures var t := old(AccountTable());
              var dest := FirstActiveWithNumber(t, toNumber, 0);
              && (ok <==> fromId in t.entries && dest.Some? && 0.0 < amount <= t.entries[fromId].balance)
              && AccountTable() == (if ok then Credit(Debit(t, fromId, amount), dest.value, amount) else t)
      ensures var t := old(AccountTable());
              var dest := FirstActiveWithNumber(t, toNumber, 0);
              fromId !in t.entries || dest.None? || amount <= 0.0 ==> transactions == old(transactions)
      ensures var t := old(AccountTable());
              var dest := FirstActiveWithNumber(t, toNumber, 0);
              fromId in t.entries && dest.Some? && amount > 0.0 && !ok ==>
                transactions == old(transactions).Put(debit.id, Record(debit, fromId, TransactionType.Transfer, amount,
                                                                   description, Some(t.entries[dest.value].accountId), Failed))
      ensures var t := old(AccountTable());
              var dest := FirstActiveWithNumber(t, toNumber, 0);
              ok ==>
                transactions == old(transactions)
                  .Put(debit.id, Record(debit, fromId, TransactionType.Transfer, amount, description,
                                        Some(t.entries[dest.value].accountId), Completed))
                  .Put(credit.id, Record(credit, t.entries[dest.value].accountId, TransactionType.Deposit, amount,
                                         "Transfer from " + t.entries[fromId].accountNumber,
                                         Some(t.entries[fromId].accountId), Completed))
    {
      ghost var before := AccountTable();
      var fromAccount := GetAccountById(fromId);
      var toAccount := GetAccountByNumber(toNumber);
      if fromAccount.None? || toAccount.None? || amount <= 0.0 {
        return false;
      }
      var source := fromAccount.value;
      var target := toAccount.value;
      ghost var destKey := FirstActiveWithNumber(before, toNumber, 0).value;
      assert before.entries[destKey] == target.Data() && before.entries[fromId] == source.Data();
      ok := TransferFound(source, target, fromId, destKey, amount, description, debit, credit);
    }

    /** `get_account_transactions(account_id, limit)`: the account's
        transactions, newest first, cut to `limit` the way a Python slice
        cuts. */
    function GetAccountTransactions(accountId: string, limit: int): (r: seq<TransactionData>)
      reads this`transactions
      requires transactions.Valid()
      ensures NewestFirst(r)
      ensures forall t :: t in r ==> t.accountId == accountId && t in transactions.Values()
      ensures multiset(r) <= multiset(OfAccount(transactions.Values(), accountId))
      ensures forall t, u :: t in transactions.Values() && t.accountId == accountId && t !in r && u in r ==>
        u.createdAt >= t.createdAt
      ensures var n := |OfAccount(transactions.Values(), accountId)|;
        |r| == if limit >= 0 then Min(limit, n) else Max(0, n + limit)
    {
      var own := OfAccount(transactions.Values(), accountId);
      NewestTransactions(own, limit)
    }

    /** `get_all_transactions(limit)`: every transaction, newest first, cut to `limit`. */
    function GetAllTransactions(limit: int): (r: seq<TransactionData>)
      reads this`transactions
      requires transactions.Valid()
      ensures NewestFirst(r)
      ensures forall t :: t in r ==> t in transactions.Values()
      ensures multiset(r) <= multiset(transactions.Values())
      ensures forall t, u :: t in transactions.Values() && t !in r && u in r ==> u.createdAt >= t.createdAt
      ensures |r| == if limit >= 0 then Min(limit, |transactions.keys|) else Max(0, |transactions.keys| + limit)
    {
      NewestTransactions(transactions.Values(), limit)
    }

    /** `get_transaction_summary(days)` at the instant `now`. */
    function GetTransactionSummary(days: int, now: int): (r: Summary)
      reads this`transactions
      requires transactions.Valid()
      ensures r.netFlow == r.totalDeposits - r.totalWithdrawals
    {
      TransactionSummary(transactions.Values(), days, now)
    }

    /** `get_system_stats` */
    function GetSystemStats(): (r: SystemStats)
      reads this, users.entries.Values, accounts.entries.Values
      requires users.Valid() && accounts.Valid() && transactions.Valid()
      ensures r.totalBalance == ActiveBalance(AccountTable())
      ensures r.totalTransactions == |transactions.entries.Keys|
      ensures r.totalUsers == |KeysWhere(UserTableOf(users), IsActiveUser)|
      ensures r.totalAccounts == |KeysWhere(AccountTable(), IsActiveAccount)|
    {
      Stats(UserTableOf(users), AccountTable(), transactions.Size())
    }
  }
}
