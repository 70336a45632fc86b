/** Who may touch a cart (`apps/api/src/cart/cart-authorise.ts`), and the cart blob kept in Redis. */
module CartAuthorise {
  import opened Wrappers
  import CartLines

  type CustomerId = nat

  /** An authenticated customer: the JWT principal. */
  datatype Customer = Customer(id: CustomerId, tenantId: string)

  datatype Status = Active | Converted | Abandoned

  /** The Redis blob of a cart, without the parts no ownership decision reads. */
  datatype Blob = Blob(tenantId: string, owner: Option<CustomerId>, token: string, currency: string, status: Status,
      items: seq<CartLines.Line>)

  datatype Error = Forbidden | NotFound | Conflict | CurrencyMismatch | VariantMissing | Fault

  /** A token the source treats as present: JavaScript's empty string is falsy. */
  predicate Presented(token: Option<string>) { token.Some? && token.value != "" }

  predicate HoldsToken(blob: Blob, token: Option<string>) { Presented(token) && blob.token == token.value }

  predicate OwnsByJwt(blob: Blob, principal: Option<Customer>) {
    principal.Some? && blob.owner == Some(principal.value.id) && blob.tenantId == principal.value.tenantId
  }

  predicate Live(state: Option<Blob>) { state.Some? && state.value.status != Abandoned }

  /** `authoriseCart`: `None` when the caller is let through, otherwise what it throws. */
  function Authorise(state: Option<Blob>, token: Option<string>, principal: Option<Customer>): Option<Error> {
    if state.None? || state.value.status == Abandoned then
      if !Presented(token) && principal.None? then Some(Forbidden) else Some(NotFound)
    else if principal.Some? then
      if state.value.owner.Some? && state.value.owner.value == principal.value.id
        && state.value.tenantId == principal.value.tenantId then None
      else if Presented(token) && state.value.token == token.value then None
      else Some(Forbidden)
    else if !Presented(token) || state.value.token != token.value then Some(Forbidden)
    else None
  }

  /** Access is granted exactly to the token holder and the owning customer of a cart that is not abandoned. */
  lemma AuthorisedExactly(state: Option<Blob>, token: Option<string>, principal: Option<Customer>)
    ensures Authorise(state, token, principal).None?
            <==> Live(state) && (HoldsToken(state.value, token) || OwnsByJwt(state.value, principal))
  {}

  /**
   * Every answer, spelt out: the token holder and the owner are let in; whoever else shows a credential, an empty
   * token being none, gets 404 for a cart that is not live; all others get 403.
   */
  lemma AnswersExactly(state: Option<Blob>, token: Option<string>, principal: Option<Customer>)
    ensures var live := state.Some? && state.value.status != Abandoned;
            var shown := token.Some? && token.value != "";
            var holds := live && shown && token.value == state.value.token;
            var owns := live && principal.Some? && state.value.owner == Some(principal.value.id)
                        && state.value.tenantId == principal.value.tenantId;
            Authorise(state, token, principal)
            == if holds || owns then None
               else if !live && (shown || principal.Some?) then Some(NotFound)
               else Some(Forbidden)
  {}

  /**
   * A refusal reveals nothing: two callers who present the same KINDS of credential get the same answer from any
   * two carts that are both live or both not, whatever their tokens, owners and contents.
   */
  lemma RefusalIsUniform(s1: Option<Blob>, t1: Option<string>, p1: Option<Customer>, s2: Option<Blob>,
      t2: Option<string>, p2: Option<Customer>)
    requires Live(s1) == Live(s2) && Presented(t1) == Presented(t2) && p1.Some? == p2.Some?
    requires Authorise(s1, t1, p1).Some? && Authorise(s2, t2, p2).Some?
    ensures Authorise(s1, t1, p1) == Authorise(s2, t2, p2)
  {}

  /**
   * What a refusal does reveal: the answer of a live cart differs from that of a cart that does not exist exactly
   * when the caller shows some credential, so only a caller without any learns nothing about existence.
   */
  lemma RefusalHidesExistenceExactly(state: Option<Blob>, token: Option<string>, principal: Option<Customer>)
    requires Live(state) && Authorise(state, token, principal).Some?
    ensures Authorise(state, token, principal) == Authorise(None, token, principal)
            <==> !Presented(token) && principal.None?
  {}
}
