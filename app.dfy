/** The marketplace screen's state: the catalog, the cart and the wallet held
    in memory, and the three storage keys each mutation writes. The import
    writes its key before setting memory; the other mutations set memory
    first. */
module App {
  import opened Js
  import opened Catalog
  import Cart

  /** What the device's key-value storage holds under the three keys
      'site_listings_v1', 'site_cart_v1' and 'wallet_balance_v1'; None is a
      key that is not set. The catalog and the cart are stored as record
      lists, the wallet as the text String(wallet). */
  datatype Storage = Storage(listings: Option<seq<Site>>, cart: Option<seq<Site>>, wallet: Option<string>)

  const EmptyStorage := Storage(None, None, None)

  /** The in-memory state of the screen. */
  datatype State = State(sites: seq<Site>, cart: seq<Site>, wallet: int)

  /** `if (w) setWallet(parseFloat(w) || 0)` after starting from 0: an unset or
      empty key, or text that is not a number, gives 0. */
  function LoadWallet(w: Option<string>): (n: int)
    ensures w.None? ==> n == 0
    ensures w.Some? && ParseFloat(w.value).NaN? ==> n == 0
  {
    match w
    case None => 0
    case Some(t) => if t == "" then 0 else OrZero(ParseFloat(t))
  }

  /** The wallet text written by a mutation reads back as the same balance. */
  lemma LoadStoredWallet(n: int)
    ensures LoadWallet(Some(ShowInt(n))) == n
  {
    ParseShowInt(n);
  }

  /** The state loaded at start-up: each key that is set replaces the
      initial value (empty catalog, empty cart, wallet 0). */
  function Rehydrate(st: Storage): State
  {
    State(
      match st.listings case Some(s) => s case None => [],
      match st.cart case Some(c) => c case None => [],
      LoadWallet(st.wallet))
  }

  class Marketplace {
    var sites: seq<Site>
    var cart: seq<Site>
    var wallet: int
    var storage: Storage

    /** Storage always agrees with memory: loading it gives back the state
        in memory. */
    ghost predicate Valid()
      reads this
    {
      Rehydrate(storage) == State(sites, cart, wallet)
    }

    /** A first launch: nothing stored yet. */
    constructor ()
      ensures Valid()
      ensures sites == [] && cart == [] && wallet == 0 && storage == EmptyStorage
    {
      sites, cart, wallet := [], [], 0;
      storage := EmptyStorage;
    }

    /** A launch over what earlier sessions stored (loadAll). */
    constructor Load(stored: Storage)
      ensures Valid()
      ensures storage == stored && State(sites, cart, wallet) == Rehydrate(stored)
    {
      var st := Rehydrate(stored);
      sites, cart, wallet := st.sites, st.cart, st.wallet;
      storage := stored;
    }

    /** The import callback: `data` is what the CSV parser produced. The
        catalog is replaced by the imported records and stored; the count
        shown to the user is returned. */
    method ImportCsv(data: seq<seq<string>>) returns (count: nat)
      requires Valid()
      modifies this
      ensures Valid()
      ensures sites == ImportRows(data) && count == |sites|
      ensures cart == old(cart) && wallet == old(wallet)
      ensures storage == old(storage).(listings := Some(sites))
    {
      var rows := ImportRows(data);
      storage := storage.(listings := Some(rows));
      sites := rows;
      count := |rows|;
    }

    /** Adds `site` to the cart unless an entry already has its url; the new
        cart is stored. Returns whether something was added. */
    method AddToCart(site: Site) returns (added: bool)
      requires Valid()
      modifies this
      ensures Valid()
      ensures added <==> !Cart.HasEntryFor(old(cart), site.url)
      ensures cart == Cart.Add(old(cart), site)
      ensures !added ==> cart == old(cart) && storage == old(storage)
      ensures added ==> cart == old(cart) + [site] && storage == old(storage).(cart := Some(cart))
      ensures Cart.UniqueUrls(old(cart)) ==> Cart.UniqueUrls(cart)
      ensures sites == old(sites) && wallet == old(wallet)
    {
      var found := Cart.FindByUrl(cart, site.url);
      if found.Some? {
        return false;
      }
      var nc := cart + [site];
      cart := nc;
      storage := storage.(cart := Some(nc));
      added := true;
    }

    /** Pays for the cart from the wallet. When the total exceeds the wallet
        nothing changes; otherwise the wallet is debited by the total, which
        leaves it non-negative, the cart is emptied and both keys are written
        (the cart key is removed). */
    method BuyCart() returns (outcome: Cart.Outcome)
      requires Valid()
      modifies this
      ensures Valid()
      ensures outcome == Cart.Checkout(old(cart), old(wallet))
      ensures outcome.InsufficientFunds? ==> cart == old(cart) && wallet == old(wallet) && storage == old(storage)
      ensures outcome.Purchased? ==> wallet == old(wallet) - Cart.Total(old(cart)) && wallet >= 0 && cart == []
      ensures outcome.Purchased? ==> storage == old(storage).(wallet := Some(ShowInt(wallet)), cart := None)
      ensures sites == old(sites)
    {
      var total := Cart.Total(cart);
      if total > wallet {
        return Cart.InsufficientFunds(total, wallet);
      }
      var newWallet := wallet - total;
      wallet := newWallet;
      storage := storage.(wallet := Some(ShowInt(newWallet)));
      cart := [];
      storage := storage.(cart := None);
      LoadStoredWallet(newWallet);
      outcome := Cart.Purchased(total, newWallet);
    }

    /** Adds `amount` to the wallet and stores the new balance. */
    method TopUp(amount: int)
      requires Valid()
      modifies this
      ensures Valid()
      ensures wallet == old(wallet) + amount
      ensures storage == old(storage).(wallet := Some(ShowInt(wallet)))
      ensures sites == old(sites) && cart == old(cart)
    {
      var newWallet := wallet + amount;
      wallet := newWallet;
      storage := storage.(wallet := Some(ShowInt(newWallet)));
      LoadStoredWallet(newWallet);
    }
  }

  /** Two sites with different urls go into a fresh cart, and adding the
      first again is refused. */
  method AddScenario(a: Site, b: Site) returns (m: Marketplace)
    requires a.url != b.url
    ensures fresh(m) && m.Valid() && m.cart == [a, b] && m.wallet == 0
  {
    m := new Marketplace();
    assert !Cart.HasEntryFor([], a.url);
    var added := m.AddToCart(a);
    assert m.cart == [a];
    assert !Cart.HasEntryFor([a], b.url);
    added := m.AddToCart(b);
    assert m.cart == [a, b];
    assert Cart.HasEntryFor([a, b], a.url) by {
      assert [a, b][0].url == a.url;
    }
    added := m.AddToCart(a);
    assert !added && m.cart == [a, b];
  }

  /** With sites priced 10 and 20 in the cart and 25 in the wallet the
      purchase is refused and nothing changes; after topping up 5 it goes
      through, leaving an empty cart and a balance of 0. */
  method CheckoutScenario(m: Marketplace, a: Site, b: Site)
    requires m.Valid() && m.cart == [a, b] && m.wallet == 25
    requires a.price == Finite(10) && b.price == Finite(20)
    modifies m
    ensures m.Valid() && m.cart == [] && m.wallet == 0
  {
    assert Cart.Total([a, b]) == 30 by {
      assert [a, b][..1] == [a] && [a][..0] == [];
      assert Cart.Total([a]) == 10;
    }
    var outcome := m.BuyCart();
    assert outcome == Cart.InsufficientFunds(30, 25);
    assert m.cart == [a, b] && m.wallet == 25;
    m.TopUp(5);
    outcome := m.BuyCart();
    assert outcome == Cart.Purchased(30, 0);
  }
}
