/** The authorizations a verified recovery code earns, as password_reset_service.py keeps
    them: a dictionary that is pruned, inserted into and popped. */
module ResetAuthorizations {
  import opened Wrappers
  import opened Otp
  import opened OtpService
  import opened Accounts

  class AuthorizationStore {
    const cfg: Config
    var authorizations: map<Token, Authorization>

    constructor (settings: Config)
      ensures cfg == settings && authorizations == map[]
    {
      cfg := settings;
      authorizations := map[];
    }

    method Prune(now: real)
      modifies this
      ensures authorizations == WithoutExpired(old(authorizations), now)
    {
      authorizations := DeleteUnless(authorizations, (a: Authorization) => a.expiresAt > now);
    }

    /** A verified code becomes an authorization for its user alone. */
    method Mint(token: Token, user: UserId, proof: nat, now: real)
      modifies this
      ensures authorizations ==
        WithoutExpired(old(authorizations), now)[token := Authorization(user, now + cfg.authorizationTtl as real, now, proof)]
    {
      Prune(now);
      authorizations := authorizations[token := Authorization(user, now + cfg.authorizationTtl as real, now, proof)];
    }

    /** Spends an authorization: it is gone before anything is written, so it is spent at
        most once, and only while it is valid. */
    method Consume(token: Token, now: real) returns (spent: Option<Authorization>)
      modifies this
      ensures spent.Some? <==> token in old(authorizations) && now < old(authorizations)[token].expiresAt
      ensures spent.Some? ==> spent.value == old(authorizations)[token]
      ensures token !in authorizations && authorizations == WithoutExpired(old(authorizations), now) - {token}
    {
      Prune(now);
      spent := if token in authorizations then Some(authorizations[token]) else None;
      authorizations := authorizations - {token};
    }

    method InvalidateUser(user: UserId)
      modifies this
      ensures authorizations == WithoutUser(old(authorizations), user)
    {
      authorizations := DeleteUnless(authorizations, (a: Authorization) => a.user != user);
    }
  }

  /** The store's `Consume` is the step a reset request takes. */
  method StartReset(store: AuthorizationStore, token: Token, now: real) returns (task: Option<Task>)
    modifies store
    ensures var left := WithoutExpired(old(store.authorizations), now);
      && store.authorizations == left - {token}
      && task == if token in left then Some(Resetting(left[token].user, left[token].proof, left[token].mintedAt, now)) else None
  {
    var spent := store.Consume(token, now);
    match spent
    case None => return None;
    case Some(a) => return Some(Resetting(a.user, a.proof, a.mintedAt, now));
  }
}
