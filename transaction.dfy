/** project/models/transaction.py: the transaction record, its status
    setters and its dictionary form. */
module Transactions {
  import opened Common
  import Json

  datatype TransactionType = Deposit | Withdrawal | Transfer | Fee {
    /** The enum's `.value` */
    function Value(): string {
      match this
      case Deposit => "deposit"
      case Withdrawal => "withdrawal"
      case Transfer => "transfer"
      case Fee => "fee"
    }
  }

  /** `TransactionType(s)`: None where Python raises ValueError. */
  function ParseTransactionType(s: string): (r: Option<TransactionType>)
    ensures r.Some? ==> r.value.Value() == s
    ensures r.None? ==> forall t: TransactionType :: t.Value() != s
  {
    if s == "deposit" then Some(Deposit)
    else if s == "withdrawal" then Some(Withdrawal)
    else if s == "transfer" then Some(Transfer)
    else if s == "fee" then Some(Fee)
    else None
  }

  datatype TransactionStatus = Pending | Completed | Failed | Cancelled {
    /** The enum's `.value` */
    function Value(): string {
      match this
      case Pending => "pending"
      case Completed => "completed"
      case Failed => "failed"
      case Cancelled => "cancelled"
    }
  }

  /** `TransactionStatus(s)`: None where Python raises ValueError. */
  function ParseTransactionStatus(s: string): (r: Option<TransactionStatus>)
    ensures r.Some? ==> r.value.Value() == s
    ensures r.None? ==> forall t: TransactionStatus :: t.Value() != s
  {
    if s == "pending" then Some(Pending)
    else if s == "completed" then Some(Completed)
    else if s == "failed" then Some(Failed)
    else if s == "cancelled" then Some(Cancelled)
    else None
  }

  /** Every enum member is recovered from its `.value`. */
  lemma EnumRoundTrip(t: TransactionType, s: TransactionStatus)
    ensures ParseTransactionType(t.Value()) == Some(t)
    ensures ParseTransactionStatus(s.Value()) == Some(s)
  {
  }

  /** The lowest and highest draw of `random.randint(100000, 999999)`. */
  const MinReferenceDraw := 100000
  const MaxReferenceDraw := 999999

  /** `generate_reference_number`, given the integer that `random.randint`
      drew: "TXN" and six decimal digits. */
  function ReferenceNumber(draw: int): (r: string)
    requires MinReferenceDraw <= draw <= MaxReferenceDraw
    ensures |r| == 9 && r[..3] == "TXN"
    ensures forall i :: 3 <= i < 9 ==> '0' <= r[i] <= '9'
    ensures ParseDecimal(r[3..]) == draw
  {
    assert Pow10(5) == MinReferenceDraw && Pow10(6) == MaxReferenceDraw + 1;
    DecimalLength(draw, 5);
    DecimalRoundTrip(draw);
    var r := "TXN" + DecimalString(draw);
    assert r[3..] == DecimalString(draw);
    r
  }

  /** The field values of a transaction at one moment. */
  datatype TransactionData = TransactionData(
    transactionId: string,
    accountId: string,
    transactionType: TransactionType,
    amount: real,
    description: string,
    targetAccountId: Option<string>,
    createdAt: int,
    status: TransactionStatus,
    referenceNumber: string,
    fee: real)

  /** The nondeterministic inputs one new transaction consumes: the
      `uuid4()` string, the `random.randint` draw of its reference number
      and the `datetime.now()` instant of its creation. */
  datatype TxnDraw = TxnDraw(id: string, refDraw: int, now: int) {
    predicate InRange() { MinReferenceDraw <= refDraw <= MaxReferenceDraw }
  }

  class Transaction {
    const transactionId: string
    const accountId: string
    const transactionType: TransactionType
    const amount: real
    const description: string
    const targetAccountId: Option<string>
    const createdAt: int
    var status: TransactionStatus
    var referenceNumber: string
    var fee: real

    function Data(): TransactionData
      reads this
    {
      TransactionData(transactionId, accountId, transactionType, amount, description,
                      targetAccountId, createdAt, status, referenceNumber, fee)
    }

    /** `Transaction(...)` and `Transaction.create_transaction(...)`: the
        caller supplies the uuid, the instant and the reference draw. A new
        transaction is pending and carries no fee. */
    constructor (transactionId: string, accountId: string, transactionType: TransactionType,
                 amount: real, description: string, targetAccountId: Option<string>,
                 createdAt: int, refDraw: int)
      requires MinReferenceDraw <= refDraw <= MaxReferenceDraw
      ensures Data() == TransactionData(transactionId, accountId, transactionType, amount,
                                        description, targetAccountId, createdAt,
                                        Pending, ReferenceNumber(refDraw), 0.0)
    {
      this.transactionId := transactionId;
      this.accountId := accountId;
      this.transactionType := transactionType;
      this.amount := amount;
      this.description := description;
      this.targetAccountId := targetAccountId;
      this.createdAt := createdAt;
      status := Pending;
      referenceNumber := ReferenceNumber(refDraw);
      fee := 0.0;
    }

    /** Sets COMPLETED whatever the status was: terminal states are not enforced. */
    method CompleteTransaction()
      modifies this`status
      ensures Data() == old(Data()).(status := Completed)
    {
      status := Completed;
    }

    method FailTransaction()
      modifies this`status
      ensures Data() == old(Data()).(status := Failed)
    {
      status := Failed;
    }

    method CancelTransaction()
      modifies this`status
      ensures Data() == old(Data()).(status := Cancelled)
    {
      status := Cancelled;
    }

    /** Overwrites the fee (it is not added to an earlier one). */
    method AddFee(feeAmount: real)
      modifies this`fee
      ensures Data() == old(Data()).(fee := feeAmount)
    {
      fee := feeAmount;
    }

    /** `to_dict` of this object. */
    function ToDict(): (r: Json.Object)
      reads this
      ensures r.Keys == TransactionKeys
      ensures forall now, refDraw :: MinReferenceDraw <= refDraw <= MaxReferenceDraw ==>
        FromDict(r, now, refDraw) == Ok(Data())
    {
      assert forall now, refDraw :: MinReferenceDraw <= refDraw <= MaxReferenceDraw ==>
          FromDict(TransactionToDict(Data()), now, refDraw) == Ok(Data()) by {
        forall now, refDraw | MinReferenceDraw <= refDraw <= MaxReferenceDraw
          ensures FromDict(TransactionToDict(Data()), now, refDraw) == Ok(Data())
        {
          FromDictToDict(Data(), now, refDraw);
        }
      }
      TransactionToDict(Data())
    }

    /** `Transaction.from_dict(data)`: `now` is the `datetime.now()` used
        when no creation instant is stored, `refDraw` the reference draw
        used when no reference number is stored. */
    static method FromDictObject(data: Json.Object, now: int, refDraw: int) returns (r: Result<Transaction>)
      requires MinReferenceDraw <= refDraw <= MaxReferenceDraw
      ensures r.Ok? <==> FromDict(data, now, refDraw).Ok?
      ensures r.Ok? ==> fresh(r.value) && r.value.Data() == FromDict(data, now, refDraw).value
    {
      var parsed := FromDict(data, now, refDraw);
      if parsed.Err? {
        return Err(parsed.reason);
      }
      var p := parsed.value;
      var t := new Transaction(p.transactionId, p.accountId, p.transactionType, p.amount,
                               p.description, p.targetAccountId, p.createdAt, refDraw);
      t.status := p.status;
      t.referenceNumber := p.referenceNumber;
      t.fee := p.fee;
      return Ok(t);
    }
  }

  /** The keys of a stored transaction record. */
  const TransactionKeys: set<string> := {"transaction_id", "account_id", "transaction_type", "amount", "description",
                                         "target_account_id", "created_at", "status", "reference_number", "fee"}

  /** `to_dict` */
  function TransactionToDict(t: TransactionData): (r: Json.Object)
    ensures r.Keys == TransactionKeys
  {
    map[
      "transaction_id" := Json.JStr(t.transactionId),
      "account_id" := Json.JStr(t.accountId),
      "transaction_type" := Json.JStr(t.transactionType.Value()),
      "amount" := Json.JNum(t.amount),
      "description" := Json.JStr(t.description),
      "target_account_id" := (match t.targetAccountId case None => Json.JNull case Some(id) => Json.JStr(id)),
      "created_at" := Json.JTime(t.createdAt),
      "status" := Json.JStr(t.status.Value()),
      "reference_number" := Json.JStr(t.referenceNumber),
      "fee" := Json.JNum(t.fee)
    ]
  }

  /** The field values `from_dict` assigns, or the error it raises.
      Missing optional keys default to "" (description), None (target),
      `now` (created_at), PENDING (status), a fresh reference number and 0 (fee). */
  function FromDict(d: Json.Object, now: int, refDraw: int): (r: Result<TransactionData>)
    requires MinReferenceDraw <= refDraw <= MaxReferenceDraw
  {
    var id :- Json.RequiredStr(d, "transaction_id");
    var accountId :- Json.RequiredStr(d, "account_id");
    var typeName :- Json.RequiredStr(d, "transaction_type");
    var ty :- (match ParseTransactionType(typeName)
               case Some(t) => Ok(t) case None => Err("ValueError: transaction_type"));
    var amount :- Json.RequiredNum(d, "amount");
    var description :- Json.StrOr(d, "description", "");
    var target :- Json.OptionalStr(d, "target_account_id");
    var created :- Json.OptionalTime(d, "created_at");
    var statusName :- Json.StrOr(d, "status", "pending");
    var status :- (match ParseTransactionStatus(statusName)
                   case Some(s) => Ok(s) case None => Err("ValueError: status"));
    var reference :- Json.StrOr(d, "reference_number", ReferenceNumber(refDraw));
    var fee :- Json.NumOr(d, "fee", 0.0);
    Ok(TransactionData(id, accountId, ty, amount, description, target,
                       match created case Some(t) => t case None => now,
                       status, reference, fee))
  }

  /** `from_dict(to_dict(t))` reproduces every field. */
  lemma FromDictToDict(t: TransactionData, now: int, refDraw: int)
    requires MinReferenceDraw <= refDraw <= MaxReferenceDraw
    ensures FromDict(TransactionToDict(t), now, refDraw) == Ok(t)
  {
    EnumRoundTrip(t.transactionType, t.status);
    var d := TransactionToDict(t);
    assert Json.RequiredStr(d, "transaction_id") == Ok(t.transactionId);
    assert Json.RequiredStr(d, "account_id") == Ok(t.accountId);
    assert Json.RequiredStr(d, "transaction_type") == Ok(t.transactionType.Value());
    assert Json.RequiredNum(d, "amount") == Ok(t.amount);
    assert Json.StrOr(d, "description", "") == Ok(t.description);
    assert Json.OptionalStr(d, "target_account_id") == Ok(t.targetAccountId);
    assert Json.OptionalTime(d, "created_at") == Ok(Some(t.createdAt));
    assert Json.StrOr(d, "status", "pending") == Ok(t.status.Value());
    assert Json.StrOr(d, "reference_number", ReferenceNumber(refDraw)) == Ok(t.referenceNumber);
    assert Json.NumOr(d, "fee", 0.0) == Ok(t.fee);
  }

  /** With only the required keys present, `from_dict` falls back to an
      empty description, no target, the current instant, PENDING, a fresh
      reference number and no fee. */
  lemma FromDictDefaults(id: string, accountId: string, ty: TransactionType, amount: real, now: int, refDraw: int)
    requires MinReferenceDraw <= refDraw <= MaxReferenceDraw
    ensures FromDict(map["transaction_id" := Json.JStr(id), "account_id" := Json.JStr(accountId),
                         "transaction_type" := Json.JStr(ty.Value()), "amount" := Json.JNum(amount)],
                     now, refDraw)
         == Ok(TransactionData(id, accountId, ty, amount, "", None, now, Pending, ReferenceNumber(refDraw), 0.0))
  {
    EnumRoundTrip(ty, Pending);
  }
}
