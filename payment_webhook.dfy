/** The payment provider's notification endpoint (src/app/api/payment/webhook/route.ts).

    POST picks the payment id and topic from the query string (or the id from the JSON
    body) and hands the id to handlePayment, which asks the provider for the payment,
    looks up the local transaction row, credits coins through `add_coins` and records
    the provider's status on the row.

    The provider's `payment.get` is the input map `provider` (an id it does not know
    stands for a thrown error); the failures of the three database calls are the input
    `faults`. Deliveries are sequential calls. */
module PaymentWebhook {
  import opened Common
  import opened Ledger
  import PaymentCreate

  /** What `payment.get` reports: `status`, `external_reference` and `transaction_amount`. */
  datatype ProviderPayment = ProviderPayment(status: string, externalReference: string, amountCents: int)

  /** Which of the route's database calls return an error. */
  datatype Faults = Faults(lookupFails: bool, creditFails: bool, updateFails: bool)

  const NoFaults := Faults(false, false, false)

  datatype WebhookResponse =
    | NoIdFound          // 200 { message: 'No ID found' }
    | Ignored            // 200 { message: 'Ignored' }
    | AlreadyProcessed   // 200 { message: 'Already processed' }
    | CreditFailed       // 500 { error: 'Failed to add coins' }
    | PaymentNotFound    // 500: payment.get found nothing and the handler threw
    | Processed(status: string)  // 200 { message: 'OK', status }

  function HttpStatus(r: WebhookResponse): int
  {
    if r.CreditFailed? || r.PaymentNotFound? then 500 else 200
  }

  // ---------------------------------------------------------------------------
  // Choosing what to process

  /** `url.searchParams.get(name)`. */
  function Param(query: map<string, string>, name: string): Option<string>
  {
    if name in query then Some(query[name]) else None
  }

  function Topic(query: map<string, string>): Option<string>
  {
    OrElse(Param(query, "topic"), Param(query, "type"))
  }

  function QueryId(query: map<string, string>): Option<string>
  {
    OrElse(Param(query, "id"), Param(query, "data.id"))
  }

  datatype Dispatch = Process(paymentId: string) | Reply(response: WebhookResponse)

  /** With an id in the query only the topics `payment` and `merchant_order` are
      handled; without one, the body's `data.id` is handled whatever the topic. */
  function Route(query: map<string, string>, bodyDataId: Option<string>): (d: Dispatch)
    ensures Truthy(QueryId(query)) && Topic(query) in {Some("payment"), Some("merchant_order")} ==>
      d == Process(QueryId(query).value)
    ensures Truthy(QueryId(query)) && Topic(query) !in {Some("payment"), Some("merchant_order")} ==>
      d == Reply(Ignored)
    ensures !Truthy(QueryId(query)) && Truthy(bodyDataId) ==> d == Process(bodyDataId.value)
    ensures !Truthy(QueryId(query)) && !Truthy(bodyDataId) ==> d == Reply(NoIdFound)
  {
    var id := QueryId(query);
    var topic := Topic(query);
    if !Truthy(id) then
      if Truthy(bodyDataId) then Process(bodyDataId.value) else Reply(NoIdFound)
    else if topic == Some("payment") || topic == Some("merchant_order") then
      Process(id.value)
    else
      Reply(Ignored)
  }

  lemma QueryIdPrecedence(query: map<string, string>)
    ensures "id" in query && query["id"] != "" ==> QueryId(query) == Some(query["id"])
    ensures ("id" !in query || query["id"] == "") ==> QueryId(query) == Param(query, "data.id")
    ensures "topic" in query && query["topic"] != "" ==> Topic(query) == Some(query["topic"])
    ensures ("topic" !in query || query["topic"] == "") ==> Topic(query) == Param(query, "type")
  {
  }

  // ---------------------------------------------------------------------------
  // handlePayment on a ledger value

  /** Whether the local row for the payment is already marked approved. */
  predicate RowApproved(tx: Option<Transaction>)
  {
    tx.Some? && tx.value.status == Approved
  }

  /** The row handlePayment sees. */
  function LocalRow(l: LedgerState, paymentId: string, faults: Faults): (r: Option<Transaction>)
    ensures faults.lookupFails ==> r.None?
    ensures r.Some? <==> !faults.lookupFails && |WithProviderId(l.transactions, paymentId)| == 1
    ensures r.Some? ==> r.value in l.transactions && r.value.providerId == Some(paymentId)
  {
    if faults.lookupFails then None else MaybeSingle(l.transactions, paymentId)
  }

  function Handle(l: LedgerState, paymentId: string, provider: map<string, ProviderPayment>, faults: Faults)
    : (r: (LedgerState, WebhookResponse))
    ensures paymentId !in provider ==> r == (l, PaymentNotFound)
    ensures r.0.nextId == l.nextId
    ensures SameRowsButStatus(l.transactions, r.0.transactions)
  {
    if paymentId !in provider then (l, PaymentNotFound)
    else
      var payment := provider[paymentId];
      var tx := LocalRow(l, paymentId, faults);
      var recorded := if tx.Some? && !faults.updateFails then SetStatus(l.transactions, tx.value.id, payment.status)
                      else l.transactions;
      if payment.status == Approved then
        var coinsToAdd := CoinsFor(payment.amountCents);
        if RowApproved(tx) then (l, AlreadyProcessed)
        else if faults.creditFails then (l, CreditFailed)
        else
          var credited := Credit(l.balances, payment.externalReference, coinsToAdd);
          (l.(balances := credited, transactions := recorded), Processed(payment.status))
      else
        (l.(transactions := recorded), Processed(payment.status))
  }

  /** POST on a ledger value. */
  function Receive(l: LedgerState, query: map<string, string>, bodyDataId: Option<string>,
                   provider: map<string, ProviderPayment>, faults: Faults): (r: (LedgerState, WebhookResponse))
    ensures Route(query, bodyDataId).Reply? ==> r == (l, Route(query, bodyDataId).response)
    ensures Route(query, bodyDataId).Process? ==> r == Handle(l, Route(query, bodyDataId).paymentId, provider, faults)
  {
    match Route(query, bodyDataId)
    case Reply(response) => (l, response)
    case Process(paymentId) => Handle(l, paymentId, provider, faults)
  }

  // ---------------------------------------------------------------------------
  // What handlePayment promises

  /** An approved payment whose local row is already approved credits nothing and
      writes nothing. */
  lemma AlreadyApprovedIsNoOp(l: LedgerState, paymentId: string, provider: map<string, ProviderPayment>, faults: Faults)
    requires paymentId in provider && provider[paymentId].status == Approved
    requires RowApproved(LocalRow(l, paymentId, faults))
    ensures Handle(l, paymentId, provider, faults) == (l, AlreadyProcessed)
  {
  }

  /** Otherwise an approved payment credits exactly the coins of the table to the
      user named by the provider's external reference, and nobody else. */
  lemma ApprovedCreditsOnce(l: LedgerState, paymentId: string, provider: map<string, ProviderPayment>, faults: Faults)
    requires paymentId in provider && provider[paymentId].status == Approved
    requires !RowApproved(LocalRow(l, paymentId, faults)) && !faults.creditFails
    ensures var p := provider[paymentId];
      var (l', resp) := Handle(l, paymentId, provider, faults);
      && resp == Processed(Approved) && HttpStatus(resp) == 200
      && Balance(l'.balances, p.externalReference) == Balance(l.balances, p.externalReference) + CoinsFor(p.amountCents)
      && (forall u :: u != p.externalReference ==> Balance(l'.balances, u) == Balance(l.balances, u))
  {
  }

  /** A failed credit answers 500 and leaves the row as it was, so the provider's
      redelivery can still credit. */
  lemma CreditFailureChangesNothing(l: LedgerState, paymentId: string, provider: map<string, ProviderPayment>, faults: Faults)
    requires paymentId in provider && provider[paymentId].status == Approved
    requires !RowApproved(LocalRow(l, paymentId, faults)) && faults.creditFails
    ensures Handle(l, paymentId, provider, faults) == (l, CreditFailed)
    ensures HttpStatus(CreditFailed) == 500
  {
  }

  /** A payment that is not approved changes no balance; the local row, when one is
      found and the update succeeds, takes the provider's status. */
  lemma NotApprovedMirrorsStatus(l: LedgerState, paymentId: string, provider: map<string, ProviderPayment>, faults: Faults)
    requires Valid(l)
    requires paymentId in provider && provider[paymentId].status != Approved
    ensures var (l', resp) := Handle(l, paymentId, provider, faults);
      var tx := LocalRow(l, paymentId, faults);
      && l'.balances == l.balances
      && resp == Processed(provider[paymentId].status)
      && (tx.Some? && !faults.updateFails ==>
            forall i :: 0 <= i < |l'.transactions| ==>
              l'.transactions[i].status == if l.transactions[i].id == tx.value.id then provider[paymentId].status
                                           else l.transactions[i].status)
      && (tx.None? || faults.updateFails ==> l'.transactions == l.transactions)
  {
  }

  /** Handling a notification keeps the ledger invariant. */
  lemma HandlePreservesValid(l: LedgerState, paymentId: string, provider: map<string, ProviderPayment>, faults: Faults)
    requires Valid(l)
    ensures Valid(Handle(l, paymentId, provider, faults).0)
  {
    var tx := LocalRow(l, paymentId, faults);
    if paymentId in provider && tx.Some? {
      SetStatusKeepsRows(l, tx.value.id, provider[paymentId].status);
    }
  }

  // ---------------------------------------------------------------------------
  // Redeliveries

  lemma SetStatusCons(rows: seq<Transaction>, id: nat, status: string)
    requires rows != []
    ensures SetStatus(rows, id, status) ==
      [if rows[0].id == id then rows[0].(status := status) else rows[0]] + SetStatus(rows[1..], id, status)
  {
    var r := SetStatus(rows, id, status);
    assert r == [r[0]] + r[1..];
    assert r[1..] == SetStatus(rows[1..], id, status);
  }

  /** A status update leaves the table as it was when no row has that id. */
  lemma SetStatusAbsent(rows: seq<Transaction>, id: nat, status: string)
    requires forall i :: 0 <= i < |rows| ==> rows[i].id != id
    ensures SetStatus(rows, id, status) == rows
  {
  }

  /** The row found by provider id keeps being the one found after its status changes. */
  lemma {:induction false} WithProviderIdAfterSetStatus(rows: seq<Transaction>, providerId: string, id: nat, status: string)
    requires forall i, j :: 0 <= i < j < |rows| ==> rows[i].id != rows[j].id
    requires |WithProviderId(rows, providerId)| == 1 && WithProviderId(rows, providerId)[0].id == id
    ensures WithProviderId(SetStatus(rows, id, status), providerId) == [WithProviderId(rows, providerId)[0].(status := status)]
    decreases |rows|
  {
    var t := WithProviderId(rows, providerId)[0];
    var tail := rows[1..];
    var first := if rows[0].id == id then rows[0].(status := status) else rows[0];
    SetStatusCons(rows, id, status);
    var rows' := [first] + SetStatus(tail, id, status);
    assert rows'[0] == first && rows'[1..] == SetStatus(tail, id, status);
    assert first.providerId == rows[0].providerId;
    if rows[0].providerId == Some(providerId) {
      assert WithProviderId(rows, providerId) == [rows[0]] + WithProviderId(tail, providerId);
      assert rows[0] == t;
      forall i | 0 <= i < |tail| ensures tail[i].id != id {
        assert tail[i] == rows[i + 1];
      }
      SetStatusAbsent(tail, id, status);
      assert WithProviderId(tail, providerId) == [];
      assert WithProviderId(rows', providerId) == [first] + WithProviderId(tail, providerId);
    } else {
      assert WithProviderId(rows, providerId) == WithProviderId(tail, providerId);
      forall i, j | 0 <= i < j < |tail| ensures tail[i].id != tail[j].id {
        assert tail[i] == rows[i + 1] && tail[j] == rows[j + 1];
      }
      WithProviderIdAfterSetStatus(tail, providerId, id, status);
      assert WithProviderId(rows', providerId) == WithProviderId(SetStatus(tail, id, status), providerId);
    }
  }

  /** A first delivery of an approved payment finds its unapproved row, credits once and
      records the approval; a second delivery with a working lookup then answers
      "Already processed" and credits nothing. */
  lemma SecondDeliveryCreditsNothing(l: LedgerState, paymentId: string, provider: map<string, ProviderPayment>, second: Faults)
    requires Valid(l)
    requires paymentId in provider && provider[paymentId].status == Approved
    requires MaybeSingle(l.transactions, paymentId).Some?
    requires !RowApproved(MaybeSingle(l.transactions, paymentId))
    requires !second.lookupFails
    ensures var p := provider[paymentId];
      var (l1, r1) := Handle(l, paymentId, provider, NoFaults);
      var (l2, r2) := Handle(l1, paymentId, provider, second);
      && r1 == Processed(Approved) && r2 == AlreadyProcessed && l2 == l1
      && Balance(l2.balances, p.externalReference) == Balance(l.balances, p.externalReference) + CoinsFor(p.amountCents)
  {
    var tx := MaybeSingle(l.transactions, paymentId);
    WithProviderIdAfterSetStatus(l.transactions, paymentId, tx.value.id, Approved);
  }

  /** Deliveries of one approved payment with a single local row, one per entry of
      `creditFailures` (whether `add_coins` fails on that delivery), with working
      lookups and updates. */
  function Deliver(l: LedgerState, paymentId: string, provider: map<string, ProviderPayment>, creditFailures: seq<bool>)
    : LedgerState
    decreases |creditFailures|
  {
    if creditFailures == [] then l
    else
      var faults := Faults(false, creditFailures[0], false);
      Deliver(Handle(l, paymentId, provider, faults).0, paymentId, provider, creditFailures[1..])
  }

  /** However often the provider redelivers an approved payment whose single local row
      is not yet approved, with working lookups and status updates, the user is credited exactly once if some delivery's credit
      succeeds, and not at all otherwise; other users are never touched. */
  lemma {:induction false} RedeliveriesCreditAtMostOnce(
    l: LedgerState, paymentId: string, provider: map<string, ProviderPayment>, creditFailures: seq<bool>)
    requires Valid(l)
    requires paymentId in provider && provider[paymentId].status == Approved
    requires MaybeSingle(l.transactions, paymentId).Some? && !RowApproved(MaybeSingle(l.transactions, paymentId))
    ensures var p := provider[paymentId];
      var l' := Deliver(l, paymentId, provider, creditFailures);
      && Balance(l'.balances, p.externalReference) ==
           Balance(l.balances, p.externalReference) + (if false in creditFailures then CoinsFor(p.amountCents) else 0)
      && (forall u :: u != p.externalReference ==> Balance(l'.balances, u) == Balance(l.balances, u))
    decreases |creditFailures|
  {
    if creditFailures != [] {
      var faults := Faults(false, creditFailures[0], false);
      var l1 := Handle(l, paymentId, provider, faults).0;
      var rest := creditFailures[1..];
      assert creditFailures == [creditFailures[0]] + rest;
      HandlePreservesValid(l, paymentId, provider, faults);
      if creditFailures[0] {
        assert l1 == l;
        RedeliveriesCreditAtMostOnce(l1, paymentId, provider, rest);
      } else {
        var tx := MaybeSingle(l.transactions, paymentId);
        WithProviderIdAfterSetStatus(l.transactions, paymentId, tx.value.id, Approved);
        assert RowApproved(MaybeSingle(l1.transactions, paymentId));
        ApprovedAfterwardsCreditsNothing(l1, paymentId, provider, rest);
      }
    }
  }

  /** Once the single local row is approved, further deliveries with working lookups
      change nothing. */
  lemma {:induction false} ApprovedAfterwardsCreditsNothing(
    l: LedgerState, paymentId: string, provider: map<string, ProviderPayment>, creditFailures: seq<bool>)
    requires paymentId in provider && provider[paymentId].status == Approved
    requires RowApproved(MaybeSingle(l.transactions, paymentId))
    ensures Deliver(l, paymentId, provider, creditFailures) == l
    decreases |creditFailures|
  {
    if creditFailures != [] {
      ApprovedAfterwardsCreditsNothing(l, paymentId, provider, creditFailures[1..]);
    }
  }

  /** After a delivery that credited and recorded the approval, a redelivery whose
      lookup fails sees no row, so the user is credited a second time. */
  lemma ApprovedThenFailedLookupCreditsAgain(l: LedgerState, paymentId: string, provider: map<string, ProviderPayment>)
    requires Valid(l)
    requires paymentId in provider && provider[paymentId].status == Approved
    requires MaybeSingle(l.transactions, paymentId).Some? && !RowApproved(MaybeSingle(l.transactions, paymentId))
    ensures var p := provider[paymentId];
      var l1 := Handle(l, paymentId, provider, NoFaults).0;
      var l2 := Handle(l1, paymentId, provider, Faults(true, false, false)).0;
      && RowApproved(MaybeSingle(l1.transactions, paymentId))
      && Balance(l2.balances, p.externalReference) == Balance(l.balances, p.externalReference) + 2 * CoinsFor(p.amountCents)
  {
    var tx := MaybeSingle(l.transactions, paymentId);
    WithProviderIdAfterSetStatus(l.transactions, paymentId, tx.value.id, Approved);
  }

  /** When the lookup yields no row (none or several match, or the lookup fails) the
      credit still happens and nothing is recorded, so every such redelivery credits
      again. */
  lemma NoLocalRowCreditsEveryTime(l: LedgerState, paymentId: string, provider: map<string, ProviderPayment>,
                                   first: Faults, second: Faults)
    requires paymentId in provider && provider[paymentId].status == Approved
    requires !first.creditFails && !second.creditFails
    requires first.lookupFails || MaybeSingle(l.transactions, paymentId).None?
    requires second.lookupFails || MaybeSingle(l.transactions, paymentId).None?
    ensures var p := provider[paymentId];
      var l2 := Handle(Handle(l, paymentId, provider, first).0, paymentId, provider, second).0;
      && Balance(l2.balances, p.externalReference) == Balance(l.balances, p.externalReference) + 2 * CoinsFor(p.amountCents)
      && l2.transactions == l.transactions
  {
    var l1 := Handle(l, paymentId, provider, first).0;
    assert l1.transactions == l.transactions;
  }

  /** Credit first, then mark: when the status update fails after a successful credit,
      the row stays unapproved and the next delivery credits a second time. */
  lemma UnrecordedApprovalCreditsAgain(l: LedgerState, paymentId: string, provider: map<string, ProviderPayment>)
    requires paymentId in provider && provider[paymentId].status == Approved
    requires !RowApproved(MaybeSingle(l.transactions, paymentId))
    ensures var p := provider[paymentId];
      var l1 := Handle(l, paymentId, provider, Faults(false, false, true)).0;
      var l2 := Handle(l1, paymentId, provider, NoFaults).0;
      Balance(l2.balances, p.externalReference) == Balance(l.balances, p.externalReference) + 2 * CoinsFor(p.amountCents)
  {
    var l1 := Handle(l, paymentId, provider, Faults(false, false, true)).0;
    assert l1.transactions == l.transactions;
  }

  // ---------------------------------------------------------------------------
  // Create, then the approval notification

  /** After the create route has stored a pending row for provider payment `k`, the
      approval notification for `k` from the provider, reporting the same amount and
      the same user, credits that user exactly the coins stored in the row, and marks
      the row approved. */
  lemma CreateThenApprovalCreditsStoredCoins(
    l: LedgerState, req: PaymentCreate.CreateRequest, intent: PaymentCreate.ProviderIntent,
    provider: map<string, ProviderPayment>)
    requires Valid(l)
    requires intent.id.Some?
    requires var key := DecimalString(intent.id.value);
      && WithProviderId(l.transactions, key) == []
      && key in provider
      && provider[key] == ProviderPayment(Approved, req.userId, req.amountCents)
    ensures var key := DecimalString(intent.id.value);
      var l1 := PaymentCreate.Create(l, req, Some(intent), false).0;
      var row := l1.transactions[|l.transactions|];
      var (l2, resp) := Receive(l1, map["topic" := "payment", "id" := key], None, provider, NoFaults);
      && resp == Processed(Approved)
      && Balance(l2.balances, req.userId) == Balance(l.balances, req.userId) + row.coins
      && l2.transactions[|l.transactions|].status == Approved
  {
    var key := DecimalString(intent.id.value);
    var l1 := PaymentCreate.Create(l, req, Some(intent), false).0;
    CreatedRowIsFound(l, req, intent);
    var row := l1.transactions[|l.transactions|];
    PaymentTopicIsHandled(l1, key, provider, NoFaults);
    ApprovedFirstDelivery(l1, key, provider, row);
    var l2 := Handle(l1, key, provider, NoFaults).0;
    assert l2.transactions[|l.transactions|] == row.(status := Approved);
  }

  /** `?topic=payment&id=<key>` is handed to handlePayment with that key. */
  lemma PaymentTopicIsHandled(l: LedgerState, key: string, provider: map<string, ProviderPayment>, faults: Faults)
    requires key != ""
    ensures Receive(l, map["topic" := "payment", "id" := key], None, provider, faults) == Handle(l, key, provider, faults)
  {
    var query := map["topic" := "payment", "id" := key];
    assert Param(query, "id") == Some(key);
    assert Param(query, "topic") == Some("payment");
    assert Route(query, None) == Process(key);
  }

  /** The row the create route stores for a fresh provider id is the one the webhook finds. */
  lemma CreatedRowIsFound(l: LedgerState, req: PaymentCreate.CreateRequest, intent: PaymentCreate.ProviderIntent)
    requires Valid(l)
    requires intent.id.Some? && WithProviderId(l.transactions, DecimalString(intent.id.value)) == []
    ensures var l1 := PaymentCreate.Create(l, req, Some(intent), false).0;
      && |l1.transactions| == |l.transactions| + 1
      && var row := l1.transactions[|l.transactions|];
         && MaybeSingle(l1.transactions, DecimalString(intent.id.value)) == Some(row)
         && row.id == l.nextId && row.status == Pending && row.coins == CoinsFor(req.amountCents)
  {
    var key := DecimalString(intent.id.value);
    var l1 := PaymentCreate.Create(l, req, Some(intent), false).0;
    PaymentCreate.CreateInsertsPendingRow(l, req, intent);
    var row := l1.transactions[|l.transactions|];
    assert l1.transactions == l.transactions + [row];
    WithProviderIdAppend(l.transactions, row, key);
    assert WithProviderId(l1.transactions, key) == [row];
  }

  /** The first approved delivery for a single pending row: credit, then mark the row. */
  lemma ApprovedFirstDelivery(l: LedgerState, paymentId: string, provider: map<string, ProviderPayment>, t: Transaction)
    requires paymentId in provider && provider[paymentId].status == Approved
    requires MaybeSingle(l.transactions, paymentId) == Some(t) && t.status != Approved
    ensures var p := provider[paymentId];
      Handle(l, paymentId, provider, NoFaults) ==
        (l.(balances := Credit(l.balances, p.externalReference, CoinsFor(p.amountCents)),
            transactions := SetStatus(l.transactions, t.id, Approved)),
         Processed(Approved))
  {
  }

  lemma {:induction false} WithProviderIdAppend(rows: seq<Transaction>, row: Transaction, providerId: string)
    ensures WithProviderId(rows + [row], providerId) ==
      WithProviderId(rows, providerId) + (if row.providerId == Some(providerId) then [row] else [])
    decreases |rows|
  {
    var last := if row.providerId == Some(providerId) then [row] else [];
    if rows == [] {
      assert rows + [row] == [row];
      assert [row][1..] == [];
      assert WithProviderId([row], providerId) == last + WithProviderId([], providerId);
    } else {
      var all := rows + [row];
      var head := if rows[0].providerId == Some(providerId) then [rows[0]] else [];
      assert all[0] == rows[0];
      assert all[1..] == rows[1..] + [row];
      WithProviderIdAppend(rows[1..], row, providerId);
      calc {
        WithProviderId(all, providerId);
        head + WithProviderId(rows[1..] + [row], providerId);
        head + (WithProviderId(rows[1..], providerId) + last);
        (head + WithProviderId(rows[1..], providerId)) + last;
        WithProviderId(rows, providerId) + last;
      }
    }
  }

  // ---------------------------------------------------------------------------
  // The route, against the database

  method HandlePayment(db: Database, paymentId: string, provider: map<string, ProviderPayment>, faults: Faults)
    returns (resp: WebhookResponse)
    modifies db
    ensures (db.State(), resp) == Handle(old(db.State()), paymentId, provider, faults)
  {
    // 1. Verify with the provider.
    if paymentId !in provider {
      return PaymentNotFound;
    }
    var payment := provider[paymentId];
    // 2. The local transaction row.
    var transaction := db.SelectByProviderId(paymentId, faults.lookupFails);
    if payment.status == Approved {
      var coinsToAdd := CoinsFor(payment.amountCents);
      if transaction.Some? && transaction.value.status == Approved {
        return AlreadyProcessed;
      }
      // 3. Credit the coins.
      var ok := db.AddCoins(payment.externalReference, coinsToAdd, faults.creditFails);
      if !ok {
        return CreditFailed;
      }
      // 4. Only then mark the row approved.
      if transaction.Some? {
        db.UpdateStatus(transaction.value.id, Approved, faults.updateFails);
      }
    } else if transaction.Some? {
      db.UpdateStatus(transaction.value.id, payment.status, faults.updateFails);
    }
    resp := Processed(payment.status);
  }

  /** The route: `POST /api/payment/webhook`. */
  method Post(db: Database, query: map<string, string>, bodyDataId: Option<string>,
              provider: map<string, ProviderPayment>, faults: Faults) returns (resp: WebhookResponse)
    modifies db
    ensures (db.State(), resp) == Receive(old(db.State()), query, bodyDataId, provider, faults)
  {
    var topic := Topic(query);
    var id := QueryId(query);
    if !Truthy(id) {
      if Truthy(bodyDataId) {
        resp := HandlePayment(db, bodyDataId.value, provider, faults);
        return;
      }
      return NoIdFound;
    }
    if topic == Some("payment") || topic == Some("merchant_order") {
      resp := HandlePayment(db, id.value, provider, faults);
      return;
    }
    return Ignored;
  }
}
