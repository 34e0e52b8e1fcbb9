/** The payment ledger shared by the two payment routes
    (src/app/api/payment/create/route.ts and src/app/api/payment/webhook/route.ts):
    the `transactions` table, each user's coin balance, the package-to-coins table both
    routes use, and the database operations the routes perform on them.

    Amounts are integer centavos: the source's `Number(amount)` in reais is
    `amountCents / 100`, so its `Math.floor(amount * 10)` is `amountCents / 10`
    (Dafny's division rounds down for a positive divisor). */
module Ledger {
  import opened Common

  const Pending := "pending"
  const Approved := "approved"

  /** One row of the `transactions` table. `providerId` is the provider's payment id
      as text, or null when the provider returned no id. */
  datatype Transaction = Transaction(
    id: nat,
    userId: string,
    amountCents: int,
    coins: int,
    status: string,
    providerId: Option<string>,
    qrCode: Option<string>,
    qrCodeBase64: Option<string>)

  datatype LedgerState = LedgerState(
    transactions: seq<Transaction>,
    balances: map<string, int>,
    nextId: nat)

  // ---------------------------------------------------------------------------
  // The coins table

  /** `coinsMap = {10: 100, 25: 300, 50: 700}`, keyed here by centavos. */
  function PackageCoins(amountCents: int): Option<int>
  {
    if amountCents == 1000 then Some(100)
    else if amountCents == 2500 then Some(300)
    else if amountCents == 5000 then Some(700)
    else None
  }

  /** `coinsMap[amount] || Math.floor(amount * 10)`: the table value for a listed
      amount, otherwise the amount in reais times ten rounded down. */
  function CoinsFor(amountCents: int): (coins: int)
    ensures PackageCoins(amountCents).Some? ==> coins == PackageCoins(amountCents).value
    ensures PackageCoins(amountCents).None? ==> coins * 10 <= amountCents < coins * 10 + 10
  {
    match PackageCoins(amountCents)
    case Some(c) => c
    case None => amountCents / 10
  }

  lemma CoinsTable()
    ensures CoinsFor(1000) == 100 && CoinsFor(2500) == 300 && CoinsFor(5000) == 700
    ensures CoinsFor(3700) == 370 && CoinsFor(999) == 99 && CoinsFor(0) == 0
  {
  }

  // ---------------------------------------------------------------------------
  // Queries and writes on the table

  function Balance(balances: map<string, int>, user: string): int
  {
    if user in balances then balances[user] else 0
  }

  /** The rows whose `provider_id` equals `providerId`, in table order. */
  function WithProviderId(rows: seq<Transaction>, providerId: string): (r: seq<Transaction>)
    ensures |r| <= |rows|
    ensures forall t :: t in r <==> t in rows && t.providerId == Some(providerId)
  {
    if rows == [] then []
    else
      var head := if rows[0].providerId == Some(providerId) then [rows[0]] else [];
      head + WithProviderId(rows[1..], providerId)
  }

  /** `.eq('provider_id', id).maybeSingle()`: the row when exactly one row matches;
      no row, or several (which the client reports as an error), give null. */
  function MaybeSingle(rows: seq<Transaction>, providerId: string): (r: Option<Transaction>)
    ensures r.Some? <==> |WithProviderId(rows, providerId)| == 1
    ensures r.Some? ==> r.value in rows && r.value.providerId == Some(providerId)
  {
    var matching := WithProviderId(rows, providerId);
    if |matching| == 1 then
      assert matching[0] in matching;
      Some(matching[0])
    else None
  }

  /** `.update({ status }).eq('id', id)`: every row with that id gets the new status. */
  function SetStatus(rows: seq<Transaction>, id: nat, status: string): (r: seq<Transaction>)
    ensures |r| == |rows|
    ensures forall i :: 0 <= i < |rows| ==>
      r[i] == if rows[i].id == id then rows[i].(status := status) else rows[i]
  {
    seq(|rows|, i requires 0 <= i < |rows| => if rows[i].id == id then rows[i].(status := status) else rows[i])
  }

  /** The `add_coins` function: the user's balance grows by the given coins. */
  function Credit(balances: map<string, int>, user: string, coins: int): (b: map<string, int>)
    ensures Balance(b, user) == Balance(balances, user) + coins
    ensures forall u :: u != user ==> Balance(b, u) == Balance(balances, u)
  {
    balances[user := Balance(balances, user) + coins]
  }

  // ---------------------------------------------------------------------------
  // The ledger invariant

  /** Row ids are distinct and below the next id to be handed out, and every row's
      coins agree with the coins table for its amount (every row is written by the
      create route, which stores `CoinsFor(amount)`). */
  predicate Valid(l: LedgerState)
  {
    && (forall i :: 0 <= i < |l.transactions| ==> l.transactions[i].id < l.nextId)
    && (forall i, j :: 0 <= i < j < |l.transactions| ==> l.transactions[i].id != l.transactions[j].id)
    && (forall i :: 0 <= i < |l.transactions| ==>
          l.transactions[i].coins == CoinsFor(l.transactions[i].amountCents))
  }

  /** Two tables with the same rows, except possibly for their status. */
  predicate SameRowsButStatus(a: seq<Transaction>, b: seq<Transaction>)
  {
    |a| == |b| && forall i :: 0 <= i < |a| ==> a[i] == b[i].(status := a[i].status)
  }

  lemma SetStatusKeepsRows(l: LedgerState, id: nat, status: string)
    requires Valid(l)
    ensures SameRowsButStatus(l.transactions, SetStatus(l.transactions, id, status))
    ensures Valid(l.(transactions := SetStatus(l.transactions, id, status)))
  {
  }

  // ---------------------------------------------------------------------------
  // The database the routes talk to

  class Database {
    var transactions: seq<Transaction>
    var balances: map<string, int>
    var nextId: nat

    function State(): LedgerState
      reads this
    {
      LedgerState(transactions, balances, nextId)
    }

    constructor (initial: LedgerState)
      ensures State() == initial
    {
      transactions := initial.transactions;
      balances := initial.balances;
      nextId := initial.nextId;
    }

    /** `select('*').eq('provider_id', id).maybeSingle()`; a failed query yields no row. */
    method SelectByProviderId(providerId: string, fails: bool) returns (row: Option<Transaction>)
      ensures fails ==> row.None?
      ensures !fails ==> row == MaybeSingle(transactions, providerId)
    {
      if fails {
        row := None;
      } else {
        row := MaybeSingle(transactions, providerId);
      }
    }

    /** `rpc('add_coins', ...)`: either the whole increment or, on error, nothing. */
    method AddCoins(user: string, coins: int, fails: bool) returns (ok: bool)
      modifies this
      ensures ok == !fails
      ensures balances == if ok then Credit(old(balances), user, coins) else old(balances)
      ensures transactions == old(transactions) && nextId == old(nextId)
    {
      ok := !fails;
      if ok {
        balances := Credit(balances, user, coins);
      }
    }

    /** `update({ status }).eq('id', id)`; a failed update writes nothing. */
    method UpdateStatus(id: nat, status: string, fails: bool)
      modifies this
      ensures transactions == if fails then old(transactions) else SetStatus(old(transactions), id, status)
      ensures balances == old(balances) && nextId == old(nextId)
    {
      if !fails {
        transactions := SetStatus(transactions, id, status);
      }
    }

    /** `insert({...})`: the database assigns the next id; a failed insert writes nothing. */
    method Insert(row: Transaction, fails: bool) returns (ok: bool)
      modifies this
      ensures ok == !fails
      ensures transactions == if ok then old(transactions) + [row.(id := old(nextId))] else old(transactions)
      ensures nextId == if ok then old(nextId) + 1 else old(nextId)
      ensures balances == old(balances)
    {
      ok := !fails;
      if ok {
        transactions := transactions + [row.(id := nextId)];
        nextId := nextId + 1;
      }
    }
  }
}
