/** The coin shop dialog (src/components/shop/CoinStore.tsx): the package table, the
    CPF field, which always holds `formatCPF` of what was typed, and the guard in front
    of the purchase request.

    React state becomes the fields of `CoinStoreView`; `alert` and the request sent by
    `handleBuy` are not modelled, `ConfirmBuy` returns what the guard decided instead. */
module CoinStore {
  import opened Common
  import opened Cpf
  import Ledger
  import PaymentCreate

  /** One entry of `PACKAGES` (its display colour left out; `title` is its `label`); `price` is in reais. */
  datatype Package = Package(id: nat, price: int, coins: int, title: string, popular: bool)

  const Packages: seq<Package> := [
    Package(1, 10, 100, "Pack Iniciante", false),
    Package(2, 25, 300, "Pack Popular", true),
    Package(3, 50, 700, "Pack Mestre", false)
  ]

  /** Every package's price is, in the server's coins table, worth the coins the
      dialog advertises for it. */
  lemma PackagesAgreeWithServerTable()
    ensures forall p :: p in Packages ==> Ledger.CoinsFor(p.price * 100) == p.coins
  {
    var p1, p2, p3 := Packages[0], Packages[1], Packages[2];
    assert Ledger.CoinsFor(p1.price * 100) == p1.coins;
    assert Ledger.CoinsFor(p2.price * 100) == p2.coins;
    assert Ledger.CoinsFor(p3.price * 100) == p3.coins;
  }

  /** The purchase request `handleBuy` sends for a package: `packageId: pkg.id`,
      `amount: pkg.price` (as centavos here), the user's id and e-mail. */
  function PurchaseRequest(pkg: Package, userId: string, email: Option<string>): PaymentCreate.CreateRequest
  {
    PaymentCreate.CreateRequest(DecimalString(pkg.id), pkg.price * 100, userId, email, None)
  }

  /** Buying a listed package stores a pending row holding exactly the package's coins. */
  lemma PurchaseStoresPackageCoins(
    l: Ledger.LedgerState, pkg: Package, userId: string, email: Option<string>, intent: PaymentCreate.ProviderIntent)
    requires Ledger.Valid(l)
    requires pkg in Packages
    ensures var l' := PaymentCreate.Create(l, PurchaseRequest(pkg, userId, email), Some(intent), false).0;
      |l'.transactions| == |l.transactions| + 1 && l'.transactions[|l.transactions|].coins == pkg.coins
  {
    PaymentCreate.CreateInsertsPendingRow(l, PurchaseRequest(pkg, userId, email), intent);
    PackagesAgreeWithServerTable();
  }

  // ---------------------------------------------------------------------------
  // The guard, on values

  /** `cpf.length < 14` rejects exactly the values whose formatting holds fewer than
      eleven digits. */
  lemma GuardAcceptsFullCpfs(raw: string)
    ensures !(|FormatCpf(raw)| < 14) <==> |StripNonDigits(raw)| >= 11
  {
    FormatCpfLength(raw);
  }

  /** A formatted value that passes the guard sends exactly eleven digits: the first
      eleven typed. */
  lemma AcceptedCpfHasElevenDigits(raw: string)
    requires |FormatCpf(raw)| >= 14
    ensures var clean := StripNonDigits(FormatCpf(raw));
      && |clean| == 11 && AllDigits(clean)
      && |StripNonDigits(raw)| >= 11 && clean == StripNonDigits(raw)[..11]
  {
    var d := StripNonDigits(raw);
    FormatCpfLength(raw);
    assert |d| >= 11;
    FormatCpfDigits(raw);
    assert Min(|d|, 11) == 11;
  }

  datatype BuyDecision =
    | NoPackage                               // `if (!selectedPkg) return`
    | Rejected                                // alert('CPF inválido')
    | Buy(pkg: Package, cleanCpf: string)     // handleBuy(selectedPkg, cpf.replace(/\D/g, ''))

  // ---------------------------------------------------------------------------
  // The component's state

  class CoinStoreView {
    var selectedPkg: Option<Package>
    var showCpfInput: bool
    var cpf: string

    /** The field only ever holds formatted text. */
    predicate Valid()
      reads this
    {
      FormatCpf(cpf) == cpf
    }

    constructor ()
      ensures selectedPkg.None? && !showCpfInput && cpf == ""
      ensures Valid()
    {
      selectedPkg := None;
      showCpfInput := false;
      cpf := "";
      FormatCpfIsMask("");
    }

    /** `initiateBuy(pkg)`. */
    method InitiateBuy(pkg: Package)
      modifies this
      ensures selectedPkg == Some(pkg) && showCpfInput && cpf == old(cpf)
    {
      selectedPkg := Some(pkg);
      showCpfInput := true;
    }

    /** The input's `onChange`: `setCpf(formatCPF(e.target.value))`. */
    method ChangeCpf(raw: string)
      modifies this
      ensures cpf == FormatCpf(raw) && Valid()
      ensures selectedPkg == old(selectedPkg) && showCpfInput == old(showCpfInput)
    {
      cpf := FormatCpf(raw);
      FormatCpfIdempotent(raw);
    }

    /** `confirmBuy()`: nothing without a package, a rejection for a short CPF, and
        otherwise the purchase with the CPF's digits, which number eleven. */
    method ConfirmBuy() returns (d: BuyDecision)
      ensures selectedPkg.None? ==> d == NoPackage
      ensures selectedPkg.Some? && |cpf| < 14 ==> d == Rejected
      ensures selectedPkg.Some? && |cpf| >= 14 ==> d == Buy(selectedPkg.value, StripNonDigits(cpf))
      ensures Valid() && d.Buy? ==> |d.cleanCpf| == 11 && AllDigits(d.cleanCpf)
    {
      if selectedPkg.None? {
        return NoPackage;
      }
      if |cpf| < 14 {
        return Rejected;
      }
      d := Buy(selectedPkg.value, StripNonDigits(cpf));
      if Valid() {
        AcceptedCpfHasElevenDigits(cpf);
      }
    }
  }
}
