/** Creating a PIX payment (src/app/api/payment/create/route.ts): the request sent to
    the payment provider, and the pending row written to the transactions table.

    The provider's `payment.create` is an input: the intent it returned or nothing
    (nothing also stands for a thrown error). `Date.now()` is the input `now`, and
    whether the database insert fails is the input `insertFails`. */
module PaymentCreate {
  import opened Common
  import opened Ledger

  /** The JSON body the client posts. `email` and `firstName` may be absent or empty,
      and the route defaults them; `packageId` and `userId` are taken as present
      strings (the route checks neither). */
  datatype CreateRequest = CreateRequest(
    packageId: string,
    amountCents: int,
    userId: string,
    email: Option<string>,
    firstName: Option<string>)

  /** The body and request options sent to `payment.create`. */
  datatype ProviderRequest = ProviderRequest(
    transactionAmountCents: int,
    description: string,
    paymentMethodId: string,
    payerEmail: string,
    payerFirstName: string,
    externalReference: string,
    notificationUrl: string,
    idempotencyKey: string)

  /** What `payment.create` returns: its id and the `point_of_interaction.transaction_data` fields. */
  datatype ProviderIntent = ProviderIntent(
    id: Option<nat>,
    qrCode: Option<string>,
    qrCodeBase64: Option<string>,
    ticketUrl: Option<string>)

  datatype CreateResponse =
    | Created(id: Option<nat>, qrCode: Option<string>, qrCodeBase64: Option<string>, ticketUrl: Option<string>)
    | CreateFailed

  function HttpStatus(r: CreateResponse): int
  {
    if r.Created? then 200 else 500
  }

  const DefaultEmail := "user@hubeducativo.com"
  const DefaultFirstName := "User"
  const NotificationUrl := "https://hub-educativo.vercel.app/api/payment/webhook"

  /** `pay_${userId}_${Date.now()}`. */
  function IdempotencyKey(userId: string, now: nat): string
  {
    "pay_" + userId + "_" + DecimalString(now)
  }

  /** Two requests get the same idempotency key only when they come from the same
      user at the same millisecond. */
  lemma IdempotencyKeyInjective(u1: string, t1: nat, u2: string, t2: nat)
    requires IdempotencyKey(u1, t1) == IdempotencyKey(u2, t2)
    ensures u1 == u2 && t1 == t2
  {
    var k := IdempotencyKey(u1, t1);
    var d1, d2 := DecimalString(t1), DecimalString(t2);
    assert k == ("pay_" + u1 + "_") + d1 == ("pay_" + u2 + "_") + d2;
    var n := |k|;
    // The underscore before the timestamp sits just before its digits in both renderings.
    assert k[n - |d1| - 1] == '_';
    assert k[n - |d2| - 1] == '_';
    assert d1 == k[n - |d1|..] == d2;
    DecimalStringInjective(t1, t2);
    assert "pay_" + u1 + "_" == k[..n - |d1|] == "pay_" + u2 + "_";
    assert u1 == ("pay_" + u1 + "_")[4..|u1| + 4];
  }

  /** The body sent to the provider. */
  function ProviderRequestFor(req: CreateRequest, now: nat): (p: ProviderRequest)
    ensures p.transactionAmountCents == req.amountCents
    ensures p.paymentMethodId == "pix" && p.externalReference == req.userId
    ensures p.payerEmail == if Truthy(req.email) then req.email.value else DefaultEmail
    ensures p.payerFirstName == if Truthy(req.firstName) then req.firstName.value else DefaultFirstName
    ensures p.idempotencyKey == IdempotencyKey(req.userId, now)
  {
    ProviderRequest(
      req.amountCents,
      "Moedas Hub Educativo - Pack " + req.packageId,
      "pix",
      OrDefault(req.email, DefaultEmail),
      OrDefault(req.firstName, DefaultFirstName),
      req.userId,
      NotificationUrl,
      IdempotencyKey(req.userId, now))
  }

  /** `result.id?.toString()`. */
  function ProviderIdText(id: Option<nat>): (r: Option<string>)
    ensures r.Some? <==> id.Some?
    ensures r.Some? ==> |r.value| >= 1 && AllDigits(r.value)
  {
    match id
    case None => None
    case Some(n) => Some(DecimalString(n))
  }

  /** The pending row the route inserts (its id is assigned by the database). */
  function PendingRow(req: CreateRequest, intent: ProviderIntent): Transaction
  {
    Transaction(0, req.userId, req.amountCents, CoinsFor(req.amountCents), Pending,
                ProviderIdText(intent.id), intent.qrCode, intent.qrCodeBase64)
  }

  /** The whole route on a ledger value. */
  function Create(l: LedgerState, req: CreateRequest, intent: Option<ProviderIntent>, insertFails: bool)
    : (r: (LedgerState, CreateResponse))
    ensures intent.None? ==> r == (l, CreateFailed)
    ensures intent.Some? ==> r.1 == Created(intent.value.id, intent.value.qrCode, intent.value.qrCodeBase64, intent.value.ticketUrl)
    ensures intent.Some? && insertFails ==> r.0 == l
    ensures intent.Some? && !insertFails ==>
      && r.0.transactions == l.transactions + [PendingRow(req, intent.value).(id := l.nextId)]
      && r.0.balances == l.balances && r.0.nextId == l.nextId + 1
  {
    match intent
    case None => (l, CreateFailed)
    case Some(result) =>
      var l' := if insertFails then l
        else l.(transactions := l.transactions + [PendingRow(req, result).(id := l.nextId)], nextId := l.nextId + 1);
      (l', Created(result.id, result.qrCode, result.qrCodeBase64, result.ticketUrl))
  }

  /** The inserted row holds the user, the amount, the coins of the table, the status
      `pending` and the provider's id as text; the ledger invariant survives. */
  lemma CreateInsertsPendingRow(l: LedgerState, req: CreateRequest, intent: ProviderIntent)
    requires Valid(l)
    ensures var (l', resp) := Create(l, req, Some(intent), false);
      && Valid(l')
      && |l'.transactions| == |l.transactions| + 1
      && l'.transactions[..|l.transactions|] == l.transactions
      && var row := l'.transactions[|l.transactions|];
         && row.userId == req.userId && row.amountCents == req.amountCents
         && row.coins == CoinsFor(req.amountCents) && row.status == Pending
         && row.providerId == (if intent.id.Some? then Some(DecimalString(intent.id.value)) else None)
         && row.qrCode == intent.qrCode && row.qrCodeBase64 == intent.qrCodeBase64
  {
    var (l', resp) := Create(l, req, Some(intent), false);
    assert l'.transactions[..|l.transactions|] == l.transactions;
  }

  /** Whatever the provider and the database do, the ledger invariant holds afterwards. */
  lemma CreatePreservesValid(l: LedgerState, req: CreateRequest, intent: Option<ProviderIntent>, insertFails: bool)
    requires Valid(l)
    ensures Valid(Create(l, req, intent, insertFails).0)
  {
    if intent.Some? && !insertFails {
      CreateInsertsPendingRow(l, req, intent.value);
    }
  }

  /** The route: `POST /api/payment/create`. `providerRequest` is what it asks the
      provider for; `intent` is the provider's answer to it. */
  method Post(db: Database, req: CreateRequest, now: nat, intent: Option<ProviderIntent>, insertFails: bool)
    returns (providerRequest: ProviderRequest, resp: CreateResponse)
    modifies db
    ensures providerRequest == ProviderRequestFor(req, now)
    ensures (db.State(), resp) == Create(old(db.State()), req, intent, insertFails)
  {
    providerRequest := ProviderRequestFor(req, now);
    if intent.None? {
      return providerRequest, CreateFailed;
    }
    var result := intent.value;
    var coins := CoinsFor(req.amountCents);
    var row := Transaction(0, req.userId, req.amountCents, coins, Pending,
                           ProviderIdText(result.id), result.qrCode, result.qrCodeBase64);
    var inserted := db.Insert(row, insertFails);
    // A failed insert is only logged: the payment data is returned either way.
    resp := Created(result.id, result.qrCode, result.qrCodeBase64, result.ticketUrl);
  }
}
