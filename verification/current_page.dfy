/** The navigation's section highlight (client/src/hooks/useCurrentPage.jsx): the current path
    is classified as the home page, the shop, one of the account pages, or none of them. */
module CurrentPage {
  const AccountPages: seq<string> := ["/account", "/profile", "/orders", "/wishlist", "/address", "/settings"]

  predicate StartsWith(s: string, prefix: string)
  {
    |prefix| <= |s| && s[..|prefix|] == prefix
  }

  /** `path === '/shop' || path.startsWith('/shop/')`. */
  predicate IsShopPath(path: string)
  {
    path == "/shop" || StartsWith(path, "/shop/")
  }

  /** `ACCOUNT_PAGES.includes(path)`. */
  predicate IsAccountPath(path: string)
  {
    path in AccountPages
  }

  /** `useCurrentPage`: three `if`s in turn, each overwriting the result; since no path meets
      two of the tests, each section is named for exactly its own paths. */
  method CurrentMainPage(path: string) returns (currentMainPage: string)
    ensures currentMainPage == "home" <==> path == "/"
    ensures currentMainPage == "shop" <==> IsShopPath(path)
    ensures currentMainPage == "account" <==> IsAccountPath(path)
    ensures currentMainPage == "" <==> path != "/" && !IsShopPath(path) && !IsAccountPath(path)
  {
    currentMainPage := "";
    if path == "/" {
      currentMainPage := "home";
    }
    if path == "/shop" || StartsWith(path, "/shop/") {
      currentMainPage := "shop";
    }
    if path in AccountPages {
      currentMainPage := "account";
    }
    ShopAndAccountDisjoint(path);
  }

  /** No path is both a shop path and an account page, and "/" is neither. */
  lemma ShopAndAccountDisjoint(path: string)
    ensures !(IsShopPath(path) && IsAccountPath(path))
    ensures !IsShopPath("/") && !IsAccountPath("/")
  {
    if IsShopPath(path) && path != "/shop" {
      assert path[..6] == "/shop/";
      assert path[2] == 'h';
      assert forall a | a in AccountPages :: |a| < 3 || a[2] != 'h';
    }
  }

  /** A path that merely begins with "/shop" is not the shop, and "/addresses" is not an
      account page. */
  lemma NearMissesAreUnclassified()
    ensures !IsShopPath("/shopping") && !IsAccountPath("/shopping")
    ensures !IsShopPath("/addresses") && !IsAccountPath("/addresses")
  {
    assert "/shopping"[..6] != "/shop/" by {
      assert "/shopping"[5] == 'p';
    }
  }
}
