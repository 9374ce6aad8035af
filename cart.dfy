/** The cart: adding a site unless its url is already there, the total the
    cart costs, and the check a purchase makes against the wallet. */
module Cart {
  import opened Js
  import opened Catalog

  /** No two cart entries share a url. */
  predicate UniqueUrls(cart: seq<Site>)
  {
    forall i, j :: 0 <= i < j < |cart| ==> cart[i].url != cart[j].url
  }

  /** Some entry of the cart has this url. */
  predicate HasEntryFor(cart: seq<Site>, url: string)
  {
    exists i :: 0 <= i < |cart| && cart[i].url == url
  }

  /** `cart.find(c => c.url === url)`: the first entry with that url, or
      undefined when there is none. */
  function FindByUrl(cart: seq<Site>, url: string): (r: Option<Site>)
    ensures r.None? <==> !HasEntryFor(cart, url)
    ensures r.Some? ==> exists i :: 0 <= i < |cart| && cart[i] == r.value && r.value.url == url
                                  && forall j :: 0 <= j < i ==> cart[j].url != url
  {
    if cart == [] then None
    else if cart[0].url == url then
      Some(cart[0])
    else
      var r := FindByUrl(cart[1..], url);
      assert HasEntryFor(cart[1..], url) ==> HasEntryFor(cart, url) by {
        if HasEntryFor(cart[1..], url) {
          var i :| 0 <= i < |cart[1..]| && cart[1..][i].url == url;
          assert cart[i + 1].url == url;
        }
      }
      assert HasEntryFor(cart, url) ==> HasEntryFor(cart[1..], url) by {
        if HasEntryFor(cart, url) {
          var i :| 0 <= i < |cart| && cart[i].url == url;
          assert cart[1..][i - 1].url == url;
        }
      }
      assert r.Some? ==> exists i :: 0 <= i < |cart| && cart[i] == r.value && r.value.url == url
                                    && forall j :: 0 <= j < i ==> cart[j].url != url by {
        if r.Some? {
          var i :| 0 <= i < |cart[1..]| && cart[1..][i] == r.value && r.value.url == url
                   && forall j :: 0 <= j < i ==> cart[1..][j].url != url;
          assert forall j :: 0 <= j < i + 1 ==> cart[j].url != url by {
            forall j | 0 <= j < i + 1 ensures cart[j].url != url {
              if j > 0 {
                assert cart[j] == cart[1..][j - 1];
              }
            }
          }
          assert cart[i + 1] == r.value;
        }
      }
      r
  }

  /** The cart after asking to add `site`: unchanged when an entry already has
      its url, otherwise `site` appended at the end. Either way an entry with
      that url is then in the cart, and distinct urls stay distinct. */
  function Add(cart: seq<Site>, site: Site): (r: seq<Site>)
    ensures HasEntryFor(cart, site.url) ==> r == cart
    ensures !HasEntryFor(cart, site.url) ==> r == cart + [site]
    ensures HasEntryFor(r, site.url)
    ensures UniqueUrls(cart) ==> UniqueUrls(r)
  {
    if FindByUrl(cart, site.url).Some? then cart
    else
      assert (cart + [site])[|cart|].url == site.url;
      cart + [site]
  }

  /** Adding the same site twice does what adding it once does. */
  lemma AddIdempotent(cart: seq<Site>, site: Site)
    ensures Add(Add(cart, site), site) == Add(cart, site)
  {
  }

  /** The cart after asking to add each of `sites` in turn. */
  function AddAll(cart: seq<Site>, sites: seq<Site>): seq<Site>
    decreases |sites|
  {
    if sites == [] then cart else AddAll(Add(cart, sites[0]), sites[1..])
  }

  /** However many adds are made, the cart never holds two entries with the
      same url, it only grows at the end, and every url asked for is in it. */
  lemma {:induction false} AddAllKeepsUrlsUnique(cart: seq<Site>, sites: seq<Site>)
    requires UniqueUrls(cart)
    ensures UniqueUrls(AddAll(cart, sites))
    ensures cart <= AddAll(cart, sites)
    ensures forall s :: s in sites ==> HasEntryFor(AddAll(cart, sites), s.url)
    decreases |sites|
  {
    if sites != [] {
      var next := Add(cart, sites[0]);
      AddAllKeepsUrlsUnique(next, sites[1..]);
      var last := AddAll(next, sites[1..]);
      assert HasEntryFor(last, sites[0].url) by {
        var i :| 0 <= i < |next| && next[i].url == sites[0].url;
        assert last[i] == next[i];
      }
      assert forall s :: s in sites ==> s == sites[0] || s in sites[1..];
    }
  }

  // ---------------------------------------------------------------------------
  // Total and checkout

  /** `b.price || 0`: a NaN price counts as 0. */
  function PriceOf(site: Site): int
  {
    OrZero(site.price)
  }

  /** `cart.reduce((a, b) => a + (b.price || 0), 0)`, summing front to back. */
  function Total(cart: seq<Site>): int
  {
    if cart == [] then 0 else Total(cart[..|cart| - 1]) + PriceOf(cart[|cart| - 1])
  }

  lemma {:induction false} TotalAppend(a: seq<Site>, b: seq<Site>)
    ensures Total(a + b) == Total(a) + Total(b)
    decreases |b|
  {
    if b == [] {
      assert a + b == a;
    } else {
      var ab := a + b;
      assert ab[..|ab| - 1] == a + b[..|b| - 1];
      TotalAppend(a, b[..|b| - 1]);
    }
  }

  /** Adding a site raises the total by that site's price, or not at all when
      its url was already in the cart. */
  lemma TotalAfterAdd(cart: seq<Site>, site: Site)
    ensures Total(Add(cart, site)) == Total(cart) + (if HasEntryFor(cart, site.url) then 0 else PriceOf(site))
  {
    if !HasEntryFor(cart, site.url) {
      TotalAppend(cart, [site]);
      assert Total([site]) == Total([site][..0]) + PriceOf(site);
    }
  }

  /** With no negative price the total is not negative. */
  lemma {:induction false} TotalNonNegative(cart: seq<Site>)
    requires forall i :: 0 <= i < |cart| ==> PriceOf(cart[i]) >= 0
    ensures Total(cart) >= 0
  {
    if cart != [] {
      TotalNonNegative(cart[..|cart| - 1]);
    }
  }

  /** What buyCart reports. */
  datatype Outcome = InsufficientFunds(total: int, wallet: int) | Purchased(spent: int, balance: int)

  /** The purchase check: it fails exactly when the total exceeds the wallet,
      reporting both amounts; otherwise the whole total is spent and the new
      balance is what was left, which is never negative. A total equal to the
      wallet succeeds and leaves 0. */
  function Checkout(cart: seq<Site>, wallet: int): (r: Outcome)
    ensures r.InsufficientFunds? <==> Total(cart) > wallet
    ensures r.InsufficientFunds? ==> r.total == Total(cart) && r.wallet == wallet
    ensures r.Purchased? ==> r.spent == Total(cart) && r.balance + r.spent == wallet && r.balance >= 0
    ensures Total(cart) == wallet ==> r == Purchased(wallet, 0)
  {
    var total := Total(cart);
    if total > wallet then InsufficientFunds(total, wallet) else Purchased(total, wallet - total)
  }
}
