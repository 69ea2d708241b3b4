/** project/models/account.py: a bank account, its balance arithmetic and
    its dictionary form. */
module Accounts {
  import opened Common
  import Json

  const DefaultDailyLimit: real := 50000.0
  const DefaultMonthlyLimit: real := 500000.0

  /** The bounds of `random.randint(1000000000, 9999999999)`. */
  const MinAccountNumberDraw := 1000000000
  const MaxAccountNumberDraw := 9999999999

  /** `generate_account_number`, given the integer that `random.randint`
      drew: always ten decimal digits, the first not '0', reading back as
      the draw. Nothing checks it against existing account numbers. */
  function GenerateAccountNumber(draw: int): (r: string)
    requires MinAccountNumberDraw <= draw <= MaxAccountNumberDraw
    ensures |r| == 10 && r[0] != '0'
    ensures forall i :: 0 <= i < 10 ==> '0' <= r[i] <= '9'
    ensures ParseDecimal(r) == draw
  {
    assert Pow10(9) == MinAccountNumberDraw && Pow10(10) == MaxAccountNumberDraw + 1;
    DecimalLength(draw, 9);
    DecimalRoundTrip(draw);
    DecimalString(draw)
  }

  /** The field values of an account at one moment. */
  datatype AccountData = AccountData(
    accountId: string,
    userId: string,
    accountNumber: string,
    accountType: string,
    balance: real,
    createdAt: int,
    isActive: bool,
    dailyTransactionLimit: real,
    monthlyTransactionLimit: real)

  class Account {
    const accountId: string
    const userId: string
    const accountNumber: string
    const accountType: string
    var balance: real
    const createdAt: int
    var isActive: bool
    var dailyTransactionLimit: real
    var monthlyTransactionLimit: real

    function Data(): AccountData
      reads this
    {
      AccountData(accountId, userId, accountNumber, accountType, balance, createdAt,
                  isActive, dailyTransactionLimit, monthlyTransactionLimit)
    }

    /** `Account(...)`: a new account is active with the default limits. */
    constructor (accountId: string, userId: string, accountNumber: string, accountType: string,
                 balance: real, createdAt: int)
      ensures Data() == AccountData(accountId, userId, accountNumber, accountType, balance,
                                    createdAt, true, DefaultDailyLimit, DefaultMonthlyLimit)
    {
      this.accountId := accountId;
      this.userId := userId;
      this.accountNumber := accountNumber;
      this.accountType := accountType;
      this.balance := balance;
      this.createdAt := createdAt;
      isActive := true;
      dailyTransactionLimit := DefaultDailyLimit;
      monthlyTransactionLimit := DefaultMonthlyLimit;
    }

    /** `Account.create_account`: `accountId` is the `uuid4()` string,
        `numberDraw` the `random.randint` draw, `now` the creation instant.
        The initial balance is taken as given, negative or not. */
    static method CreateAccount(userId: string, accountType: string, initialBalance: real,
                                accountId: string, numberDraw: int, now: int) returns (a: Account)
      requires MinAccountNumberDraw <= numberDraw <= MaxAccountNumberDraw
      ensures fresh(a)
      ensures a.Data() == AccountData(accountId, userId, GenerateAccountNumber(numberDraw), accountType,
                                      initialBalance, now, true, DefaultDailyLimit, DefaultMonthlyLimit)
    {
      a := new Account(accountId, userId, GenerateAccountNumber(numberDraw), accountType, initialBalance, now);
    }

    /** Rejects a non-positive amount; otherwise adds it to the balance. */
    method Deposit(amount: real) returns (ok: bool)
      modifies this`balance
      ensures ok <==> amount > 0.0
      ensures balance == if ok then old(balance) + amount else old(balance)
    {
      if amount <= 0.0 {
        return false;
      }
      balance := balance + amount;
      return true;
    }

    /** Rejects a non-positive amount and one above the balance; otherwise
        takes it from the balance, which therefore stays non-negative. */
    method Withdraw(amount: real) returns (ok: bool)
      modifies this`balance
      ensures ok <==> 0.0 < amount <= old(balance)
      ensures balance == if ok then old(balance) - amount else old(balance)
      ensures ok ==> balance >= 0.0
    {
      if amount <= 0.0 || amount > balance {
        return false;
      }
      balance := balance - amount;
      return true;
    }

    /** The guard of `Withdraw`; on success this balance loses `amount` and
        the target's gains it. A transfer to this very object nets to zero. */
    method TransferTo(target: Account, amount: real) returns (ok: bool)
      modifies this`balance, target`balance
      ensures ok <==> 0.0 < amount <= old(balance)
      ensures target == this ==> balance == old(balance)
      ensures target != this ==> balance == (if ok then old(balance) - amount else old(balance))
      ensures target != this ==> target.balance == (if ok then old(target.balance) + amount else old(target.balance))
      ensures target != this ==> balance + target.balance == old(balance + target.balance)
      ensures ok ==> balance >= 0.0
    {
      if amount <= 0.0 || amount > balance {
        return false;
      }
      balance := balance - amount;
      target.balance := target.balance + amount;
      return true;
    }

    function GetBalance(): (r: real)
      reads this
      ensures r == Data().balance
    {
      balance
    }

    /** Replaces both limits and nothing else; no operation enforces them. */
    method SetTransactionLimits(dailyLimit: real, monthlyLimit: real)
      modifies this`dailyTransactionLimit, this`monthlyTransactionLimit
      ensures Data() == old(Data()).(dailyTransactionLimit := dailyLimit, monthlyTransactionLimit := monthlyLimit)
    {
      dailyTransactionLimit := dailyLimit;
      monthlyTransactionLimit := monthlyLimit;
    }

    /** `to_dict` of this object. */
    function ToDict(): (r: Json.Object)
      reads this
      ensures r.Keys == AccountKeys
      ensures forall now :: FromDict(r, now) == Ok(Data())
    {
      assert forall now :: FromDict(AccountToDict(Data()), now) == Ok(Data()) by {
        forall now ensures FromDict(AccountToDict(Data()), now) == Ok(Data()) {
          FromDictToDict(Data(), now);
        }
      }
      AccountToDict(Data())
    }

    /** `Account.from_dict(data)`: `now` is the `datetime.now()` used when
        no creation instant is stored. */
    static method FromDictObject(data: Json.Object, now: int) returns (r: Result<Account>)
      ensures r.Ok? <==> FromDict(data, now).Ok?
      ensures r.Ok? ==> fresh(r.value) && r.value.Data() == FromDict(data, now).value
    {
      var parsed := FromDict(data, now);
      if parsed.Err? {
        return Err(parsed.reason);
      }
      var p := parsed.value;
      var a := new Account(p.accountId, p.userId, p.accountNumber, p.accountType, p.balance, p.createdAt);
      a.isActive := p.isActive;
      a.dailyTransactionLimit := p.dailyTransactionLimit;
      a.monthlyTransactionLimit := p.monthlyTransactionLimit;
      return Ok(a);
    }
  }

  /** The keys of a stored account record. */
  const AccountKeys: set<string> := {"account_id", "user_id", "account_number", "account_type", "balance",
                                     "created_at", "is_active", "daily_transaction_limit", "monthly_transaction_limit"}

  /** `to_dict` */
  function AccountToDict(a: AccountData): (r: Json.Object)
    ensures r.Keys == AccountKeys
  {
    map[
      "account_id" := Json.JStr(a.accountId),
      "user_id" := Json.JStr(a.userId),
      "account_number" := Json.JStr(a.accountNumber),
      "account_type" := Json.JStr(a.accountType),
      "balance" := Json.JNum(a.balance),
      "created_at" := Json.JTime(a.createdAt),
      "is_active" := Json.JBool(a.isActive),
      "daily_transaction_limit" := Json.JNum(a.dailyTransactionLimit),
      "monthly_transaction_limit" := Json.JNum(a.monthlyTransactionLimit)
    ]
  }

  /** The field values `from_dict` assigns, or the error it raises. A
      missing `is_active` means active; missing limits take the defaults. */
  function FromDict(d: Json.Object, now: int): Result<AccountData> {
    var id :- Json.RequiredStr(d, "account_id");
    var userId :- Json.RequiredStr(d, "user_id");
    var number :- Json.RequiredStr(d, "account_number");
    var accountType :- Json.RequiredStr(d, "account_type");
    var balance :- Json.RequiredNum(d, "balance");
    var created :- Json.OptionalTime(d, "created_at");
    var active :- Json.BoolOr(d, "is_active", true);
    var daily :- Json.NumOr(d, "daily_transaction_limit", DefaultDailyLimit);
    var monthly :- Json.NumOr(d, "monthly_transaction_limit", DefaultMonthlyLimit);
    Ok(AccountData(id, userId, number, accountType, balance,
                   match created case Some(t) => t case None => now,
                   active, daily, monthly))
  }

  /** `from_dict(to_dict(a))` reproduces every field. */
  lemma FromDictToDict(a: AccountData, now: int)
    ensures FromDict(AccountToDict(a), now) == Ok(a)
  {
  }

  /** A record without the optional keys loads as a new account would be:
      active, with the default limits. */
  lemma FromDictDefaults(id: string, userId: string, number: string, accountType: string,
                         balance: real, createdAt: int, now: int)
    ensures FromDict(map["account_id" := Json.JStr(id), "user_id" := Json.JStr(userId),
                         "account_number" := Json.JStr(number), "account_type" := Json.JStr(accountType),
                         "balance" := Json.JNum(balance), "created_at" := Json.JTime(createdAt)], now)
         == Ok(AccountData(id, userId, number, accountType, balance, createdAt, true,
                           DefaultDailyLimit, DefaultMonthlyLimit))
  {
  }
}
