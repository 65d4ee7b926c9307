/**
 * End-to-end flows through the handlers, each on a fresh store, with the
 * replies the controller and the cart routes promise for them.  These are
 * clients of the models: everything they state follows from the handlers'
 * contracts and the lemmas beside them.
 */
module Scenarios {
  import opened Primitives
  import opened UserModel
  import opened AuthController
  import opened CartRoutes

  /** A second signup with the same email is refused and the first account stays. */
  method SignupTwice(cfg: Config, crypto: Crypto, name: string, email: string, password: string, salt: Salt, now: Time)
    returns (first: Reply, second: Reply)
    requires Lawful(crypto) && name != "" && email != ""
    ensures first.status == 201 && first.payload.Authenticated?
    ensures first.payload.profile.role == (if email == cfg.adminEmail then Admin else User)
    ensures second == Reply(409, Failed(UserExistsMessage))
  {
    var service := new AuthService(cfg, crypto);
    first := service.Signup(name, email, password, None, salt, now);
    second := service.Signup(name, email, password, None, salt, now);
  }

  /**
   * Other credentials are refused on an empty store; the admin credentials
   * create the admin record on first use, and log into it afterwards.
   */
  method AdminBootstrap(cfg: Config, crypto: Crypto, salt: Salt, t1: Time, t2: Time)
    returns (first: Reply, again: Reply, wrong: Reply)
    requires Lawful(crypto) && cfg.adminEmail != ""
    ensures first.status == 200 && first.payload.Authenticated?
    ensures first.payload.profile == Profile("Admin User", cfg.adminEmail, Admin, first.payload.profile.userId, false)
    ensures again.status == 200 && again.payload.Authenticated? && again.payload.profile == first.payload.profile
    ensures wrong == Reply(403, Failed(AuthFailedMessage))
  {
    var service := new AuthService(cfg, crypto);
    assert |cfg.adminEmail + "x"| != |cfg.adminEmail|;
    wrong := service.Login(cfg.adminEmail + "x", cfg.adminPassword, salt, t1);
    first := service.Login(cfg.adminEmail, cfg.adminPassword, salt, t1);
    var id := first.payload.profile.userId;
    var hash := crypto.bcryptHash(cfg.adminPassword, salt);
    assert service.store.byEmail == map[cfg.adminEmail := id];
    assert service.store.users[id].passwordHash == hash;
    assert crypto.bcryptCompare(cfg.adminPassword, hash);
    again := service.Login(cfg.adminEmail, cfg.adminPassword, salt, t2);
  }

  /** Enrol at signup, log in with the same assertion, remove it, and biometric login is refused. */
  method BiometricLifecycle(cfg: Config, crypto: Crypto, name: string, email: string, password: string,
                            data: string, salt: Salt, now: Time)
    returns (login: Reply, removed: Reply, status: Reply, refused: Reply)
    requires Lawful(crypto) && name != "" && email != "" && data != ""
    ensures login.status == 200 && login.payload.Authenticated? && login.payload.profile.biometricEnabled
    ensures removed == Reply(200, BiometricChanged(BiometricRemovedMessage, false))
    ensures status == Reply(200, BiometricStatus(false, email, name))
    ensures refused == Reply(403, Failed(BiometricNotEnabledMessage))
  {
    var service := new AuthService(cfg, crypto);
    var signup := service.Signup(name, email, password, Some(data), salt, now);
    var id := signup.payload.profile.userId;
    login := service.BiometricLogin(Some(email), Some(data), now);
    removed := service.RemoveBiometric(Some(id), now);
    status := service.CheckBiometricStatus(email);
    refused := service.BiometricLogin(Some(email), Some(data), now);
  }

  /**
   * The refresh token from signup is accepted once within its life; after
   * rotation it is refused, unless the rotated token happens to be identical.
   */
  method RefreshOnce(cfg: Config, crypto: Crypto, name: string, email: string, password: string,
                     salt: Salt, t0: Time, t1: Time, t2: Time)
    returns (first: Reply, replay: Reply)
    requires Lawful(crypto) && name != "" && email != "" && t0 <= t1 < t0 + Lifetime(Refresh)
    ensures first.status == 200 && first.payload.Refreshed?
    ensures first.payload.tokens.refreshToken != GenerateTokens(crypto, cfg, Claims(email, first.payload.userId), t0).refreshToken ==>
              replay == Reply(403, Failed(InvalidRefreshTokenMessage))
  {
    var service := new AuthService(cfg, crypto);
    var signup := service.Signup(name, email, password, None, salt, t0);
    var id := signup.payload.profile.userId;
    var token := signup.payload.tokens.refreshToken;
    var before := service.store.users;
    IssuedRefreshTokenAccepted(crypto, cfg, before, id, t0, t1);
    first := service.RefreshToken(Some(token), t1);
    if first.payload.Refreshed? && first.payload.tokens.refreshToken != token {
      RotatedTokenRejected(crypto, cfg, before, service.store.users, token, t1, t2);
    }
    replay := service.RefreshToken(Some(token), t2);
  }

  /** Logging out clears the stored refresh token, so it no longer refreshes. */
  method LogoutRevokes(cfg: Config, crypto: Crypto, name: string, email: string, password: string,
                       salt: Salt, t0: Time, t1: Time)
    returns (out: Reply, refresh: Reply)
    requires Lawful(crypto) && name != "" && email != ""
    ensures out == Reply(200, Done(LoggedOutMessage))
    ensures refresh == Reply(403, Failed(InvalidRefreshTokenMessage))
  {
    var service := new AuthService(cfg, crypto);
    var signup := service.Signup(name, email, password, None, salt, t0);
    var token := signup.payload.tokens.refreshToken;
    var id := signup.payload.profile.userId;
    var before := service.store.users;
    assert before.Keys == {id} && before[id].refreshToken == Some(token);
    out := service.Logout(Some(token), t1);
    SoleHolderCleared(before, service.store.users, id, Some(token));
    UnheldTokenRejected(crypto, cfg, service.store.users, token, t1);
    assert token != "";
    refresh := service.RefreshToken(Some(token), t1);
  }

  /** When one record holds the store, the record logout clears is that one. */
  lemma SoleHolderCleared(before: map<UserId, UserRecord>, after: map<UserId, UserRecord>, id: UserId, token: Option<string>)
    requires before.Keys == {id} && token.Some?
    requires exists k :: k in before && before[k].refreshToken == token && after == before[k := before[k].(refreshToken := None)]
    ensures after == map[id := before[id].(refreshToken := None)]
    ensures forall k :: k in after ==> after[k].refreshToken != token
  {
    var k :| k in before && before[k].refreshToken == token && after == before[k := before[k].(refreshToken := None)];
    assert k == id;
  }

  /** A second logout with the same token finds no record and changes nothing. */
  method LogoutTwice(cfg: Config, crypto: Crypto, name: string, email: string, password: string,
                     salt: Salt, t0: Time, t1: Time)
    returns (out: Reply, outAgain: Reply)
    requires Lawful(crypto) && name != "" && email != ""
    ensures out == outAgain == Reply(200, Done(LoggedOutMessage))
  {
    var service := new AuthService(cfg, crypto);
    var signup := service.Signup(name, email, password, None, salt, t0);
    var token := signup.payload.tokens.refreshToken;
    out := service.Logout(Some(token), t1);
    outAgain := service.Logout(Some(token), t1);
  }

  /** Adding a product twice merges into one row; buying clears the cart, and a second purchase finds it empty. */
  method CartPurchase(validId: string -> bool, userId: string, productId: string, products: map<string, Product>)
    returns (merged: int, bought: CartReply, again: CartReply)
    requires validId(userId) && validId(productId) && userId != "" && productId != ""
    requires productId in products
    ensures merged == 5
    ensures bought == CartReply(200, Purchased(PurchasedMessage,
                        [CartLine(Some(productId), products[productId].title, products[productId].price, 5)]))
    ensures again == CartReply(404, Message(CartEmptyMessage))
  {
    var cart := new CartTable(validId);
    var _ := cart.Add(Some(userId), Some(productId), Some(2));
    var _ := cart.Add(Some(userId), Some(productId), Some(3));
    merged := cart.Contents()[(userId, productId)];
    assert |cart.items| == 1;
    assert cart.items[1..] == [];
    var row := CartItem(userId, productId, 5);
    assert cart.items == [row];
    assert ItemsOf(cart.items, userId) == [row];
    assert PurchaseLines([row], products) == [CartLine(Some(productId), products[productId].title, products[productId].price, 5)];
    bought := cart.BuyAll(userId, products);
    again := cart.BuyAll(userId, products);
  }
}
