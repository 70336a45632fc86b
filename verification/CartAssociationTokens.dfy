/** The session token of a cart is kept in both stores: where each copy comes from, and when they part. */
module CartAssociationTokens {
  import opened Wrappers
  import opened CartAuthorise
  import opened CartAssociation
  import CartAssociationSafety
  import CartAssociationTheorems
  import opened CartAssociationUnits

  // ---------------------------------------------------------------- the history of a cart

  /** The creations, in order: cart `i` is the one the `i`-th of them made. */
  function Births(acts: seq<Action>): seq<Action>
    ensures forall i :: 0 <= i < |Births(acts)| ==> Births(acts)[i].Create?
  {
    if acts == [] then []
    else Births(acts[..|acts| - 1]) + if acts[|acts| - 1].Create? then [acts[|acts| - 1]] else []
  }

  /** A token that was given to cart `g`, and the call that gave it. */
  datatype Gift = Gift(call: nat, token: string)

  /** Action `a` is a claim of cart `g` that Postgres grants. */
  predicate IsClaim(s: System, a: Action, g: CartId) {
    && a.Advance? && a.run < |s.runs| && s.runs[a.run].cart == g && s.runs[a.run].pc.Claim?
    && Next(s, a).runs[a.run].pc.Commit?
  }

  /** Action `a` writes an owner of cart `g` to Redis. */
  predicate IsCommit(s: System, a: Action, g: CartId) {
    && a.Advance? && a.run < |s.runs| && s.runs[a.run].cart == g && s.runs[a.run].pc.Commit?
    && Next(s, a).runs[a.run].pc.Returned? && g < |s.carts| && s.carts[g].blob.owner.None?
  }

  /** The last granted claim of cart `g`. */
  function LastClaim(s0: System, acts: seq<Action>, g: CartId): Option<Gift> {
    if acts == [] then None
    else
      var front, a := acts[..|acts| - 1], acts[|acts| - 1];
      if IsClaim(Exec(s0, front), a, g) then Some(Gift(a.run, a.oracle.newToken)) else LastClaim(s0, front, g)
  }

  /** The token that was granted to call `r`. */
  function ClaimOf(s0: System, acts: seq<Action>, r: nat): Option<string> {
    if acts == [] then None
    else
      var front, a := acts[..|acts| - 1], acts[|acts| - 1];
      var s := Exec(s0, front);
      if r < |s.runs| && a.Advance? && a.run == r && IsClaim(s, a, s.runs[r].cart) then Some(a.oracle.newToken)
      else ClaimOf(s0, front, r)
  }

  /** The commit that wrote the owner of cart `g` to Redis, with the token its own claim was granted. */
  function Landed(s0: System, acts: seq<Action>, g: CartId): Option<Gift> {
    if acts == [] then None
    else
      var front, a := acts[..|acts| - 1], acts[|acts| - 1];
      var token := if a.Advance? then ClaimOf(s0, front, a.run) else None;
      if IsCommit(Exec(s0, front), a, g) && token.Some? then Some(Gift(a.run, token.value)) else Landed(s0, front, g)
  }

  // ---------------------------------------------------------------- both copies follow it

  lemma CommitEntered(s: System, a: Action, r: nat)
    requires r < |Next(s, a).runs| && Next(s, a).runs[r].pc.Commit?
    ensures r < |s.runs|
    ensures var token := Next(s, a).runs[r].pc.newToken;
            if a.Advance? && a.run == r then IsClaim(s, a, s.runs[r].cart) && a.oracle.newToken == token
            else s.runs[r].pc == Commit(token)
  {}

  /** A call that is about to commit holds the token its claim was granted. */
  lemma {:induction false} CommitHoldsClaim(s0: System, acts: seq<Action>, r: nat)
    requires Initial(s0) && r < |Exec(s0, acts).runs| && Exec(s0, acts).runs[r].pc.Commit?
    ensures ClaimOf(s0, acts, r) == Some(Exec(s0, acts).runs[r].pc.newToken)
  {
    var front, a := acts[..|acts| - 1], acts[|acts| - 1];
    CommitEntered(Exec(s0, front), a, r);
    if !a.Advance? || a.run != r { CommitHoldsClaim(s0, front, r); }
  }

  /** The parts of a blob that no edit and no merge changes. */
  predicate SameIdentity(a: Blob, b: Blob) {
    a.token == b.token && a.currency == b.currency && a.tenantId == b.tenantId && a.owner == b.owner
  }

  lemma OtherStepsKeepTokens(tenant: string, carts: seq<Cart>, run: Run, o: Oracle, g: CartId)
    requires g < |carts| && (o.fault || (!run.pc.Claim? && !run.pc.Commit?))
    ensures var e := StepRun(tenant, carts, run, o);
            !e.run.pc.Commit? && (run.pc.Commit? ==> e.run.pc.Failed?)
    ensures var e := StepRun(tenant, carts, run, o);
            |e.carts| == |carts| && e.carts[g].pg.token == carts[g].pg.token
            && SameIdentity(e.carts[g].blob, carts[g].blob)
  {}

  lemma ClaimGivesToken(carts: seq<Cart>, run: Run, currency: string, newToken: string, g: CartId)
    requires g < |carts|
    ensures var e := StepClaim(carts, run, currency, newToken);
            && |e.carts| == |carts| && e.carts[g].blob == carts[g].blob
            && e.carts[g].pg.token == (if e.run.pc.Commit? && run.cart == g then newToken else carts[g].pg.token)
  {}

  lemma CommitGivesToken(carts: seq<Cart>, run: Run, newToken: string, g: CartId)
    requires g < |carts| && (carts[g].blob.owner.Some? ==> carts[g].pg.owner == carts[g].blob.owner)
    requires run.cart < |carts| && carts[run.cart].pg.owner == Some(run.customer.id)
    ensures var e := StepCommit(carts, run, newToken);
            && |e.carts| == |carts| && e.carts[g].pg == carts[g].pg
            && var lands := e.run.pc.Returned? && run.cart == g && carts[g].blob.owner.None?;
               SameIdentity(e.carts[g].blob,
                 if lands then carts[g].blob.(token := newToken, owner := Some(run.customer.id)) else carts[g].blob)
  {}

  /** How one step of a call changes the two copies. */
  lemma AdvanceTokens(s: System, r: nat, o: Oracle, g: CartId)
    requires CartAssociationSafety.Inv(s) && r < |s.runs| && g < |s.carts|
    ensures var a := Advance(r, o); var s' := Next(s, a);
            && g < |s'.carts| && TokensMove(s.carts[g], s'.carts[g], IsClaim(s, a, g), o.newToken, IsCommit(s, a, g))
            && (IsCommit(s, a, g) ==> s'.carts[g].blob.token == s.runs[r].pc.newToken)
  {
    var run := s.runs[r];
    assert CartAssociationSafety.RunOk(s.carts, run) && CartAssociationSafety.CartOk(s.carts[g]);
    if o.fault || (!run.pc.Claim? && !run.pc.Commit?) {
      OtherStepsKeepTokens(s.tenant, s.carts, run, o, g);
    } else if run.pc.Claim? {
      ClaimGivesToken(s.carts, run, run.pc.currency, o.newToken, g);
    } else {
      CommitGivesToken(s.carts, run, run.pc.newToken, g);
    }
  }

  predicate TokensMove(before: Cart, after: Cart, claimed: bool, newToken: string, committed: bool) {
    && after.pg.token == (if claimed then newToken else before.pg.token)
    && (!committed ==> after.blob.token == before.blob.token)
    && after.blob.currency == before.blob.currency && after.blob.tenantId == before.blob.tenantId
    && (after.blob.owner.Some? <==> before.blob.owner.Some? || committed)
  }

  /** How one action changes the two copies. */
  lemma TokenStep(s: System, a: Action, g: CartId)
    requires CartAssociationSafety.Inv(s) && g < |s.carts|
    ensures g < |Next(s, a).carts|
    ensures var newToken := if a.Advance? then a.oracle.newToken else "";
            TokensMove(s.carts[g], Next(s, a).carts[g], IsClaim(s, a, g), newToken, IsCommit(s, a, g))
    ensures IsCommit(s, a, g) ==> Next(s, a).carts[g].blob.token == s.runs[a.run].pc.newToken
  {
    if a.Advance? && a.run < |s.runs| { AdvanceTokens(s, a.run, a.oracle, g); }
  }

  /** What a cart shows after the given creation and the given gifts. */
  predicate Follows(cart: Cart, tenant: string, birth: Action, claim: Option<Gift>, landed: Option<Gift>)
    requires birth.Create?
  {
    && cart.pg.token == (if claim.Some? then claim.value.token else birth.newToken)
    && cart.blob.token == (if landed.Some? then landed.value.token else birth.newToken)
    && cart.blob.currency == birth.currency && cart.blob.tenantId == tenant
    && (cart.blob.owner.Some? <==> landed.Some?)
  }

  lemma OnlyToCarts(s: System, a: Action, g: CartId)
    ensures IsClaim(s, a, g) || IsCommit(s, a, g) ==> g < |s.carts|
    ensures |s.carts| <= |Next(s, a).carts|
  {}

  lemma {:induction false} NothingHappenedYet(s0: System, acts: seq<Action>, g: CartId)
    requires g >= |Exec(s0, acts).carts|
    ensures LastClaim(s0, acts, g).None? && Landed(s0, acts, g).None?
  {
    if acts != [] {
      var front, a := acts[..|acts| - 1], acts[|acts| - 1];
      OnlyToCarts(Exec(s0, front), a, g);
      NothingHappenedYet(s0, front, g);
    }
  }

  /**
   * Postgres keeps the token of the last granted claim, Redis that of the claim whose commit landed, each the token
   * of the creation if there was none; currency and tenant are those of the creation for good.
   */
  lemma {:induction false} CartFollowsHistory(s0: System, acts: seq<Action>, g: CartId)
    requires Initial(s0)
    ensures |Births(acts)| == |Exec(s0, acts).carts| && Exec(s0, acts).tenant == s0.tenant
    ensures g < |Births(acts)| ==>
              Follows(Exec(s0, acts).carts[g], s0.tenant, Births(acts)[g], LastClaim(s0, acts, g), Landed(s0, acts, g))
  {
    if acts != [] {
      var front, a := acts[..|acts| - 1], acts[|acts| - 1];
      CartFollowsHistory(s0, front, g);
      CartAssociationSafety.ExecKeeps(s0, front);
      CartsAfter(Exec(s0, front), a);
      if g < |Births(front)| {
        FollowsOn(s0, front, a, g);
      } else {
        NothingHappenedYet(s0, front, g);
        OnlyToCarts(Exec(s0, front), a, g);
      }
    }
  }

  lemma CartsAfter(s: System, a: Action)
    ensures Next(s, a).tenant == s.tenant
    ensures |Next(s, a).carts| == |s.carts| + if a.Create? then 1 else 0
    ensures a.Create? ==> Next(s, a).carts[|s.carts|] == NewCart(s.tenant, a.newToken, a.currency)
  {}

  lemma FollowsOn(s0: System, front: seq<Action>, a: Action, g: CartId)
    requires Initial(s0) && CartAssociationSafety.Inv(Exec(s0, front)) && g < |Exec(s0, front).carts|
    requires g < |Births(front)| && Exec(s0, front).tenant == s0.tenant
    requires Follows(Exec(s0, front).carts[g], s0.tenant, Births(front)[g], LastClaim(s0, front, g),
                     Landed(s0, front, g))
    ensures g < |Next(Exec(s0, front), a).carts|
    ensures Follows(Next(Exec(s0, front), a).carts[g], s0.tenant, Births(front)[g], LastClaim(s0, front + [a], g),
                    Landed(s0, front + [a], g))
  {
    assert (front + [a])[..|front|] == front;
    TokenStep(Exec(s0, front), a, g);
    if IsCommit(Exec(s0, front), a, g) { CommitHoldsClaim(s0, front, a.run); }
  }

  // ---------------------------------------------------------------- when the two copies part

  predicate PastClaim(runs: seq<Run>, r: nat) {
    r < |runs| && (runs[r].pc.Commit? || Finished(runs[r]))
  }

  lemma PastClaimStep(s: System, a: Action, r: nat)
    ensures PastClaim(s.runs, r) ==> PastClaim(Next(s, a).runs, r) && forall g :: IsClaim(s, a, g) ==> a.run != r
    ensures (exists g :: IsClaim(s, a, g)) ==> PastClaim(Next(s, a).runs, a.run)
  {}

  /** A call is granted one claim at most. */
  lemma {:induction false} ClaimedIsPast(s0: System, acts: seq<Action>, r: nat)
    requires ClaimOf(s0, acts, r).Some?
    ensures PastClaim(Exec(s0, acts).runs, r)
  {
    var front, a := acts[..|acts| - 1], acts[|acts| - 1];
    PastClaimStep(Exec(s0, front), a, r);
    if ClaimOf(s0, front, r).Some? { ClaimedIsPast(s0, front, r); }
  }

  lemma ClaimOfStep(s0: System, acts: seq<Action>, r: nat)
    requires acts != []
    ensures var front, a := acts[..|acts| - 1], acts[|acts| - 1];
            && (ClaimOf(s0, front, r).Some? ==> ClaimOf(s0, acts, r) == ClaimOf(s0, front, r))
            && forall g :: IsClaim(Exec(s0, front), a, g) && a.run == r ==>
                 ClaimOf(s0, acts, r) == Some(a.oracle.newToken)
  {
    var front, a := acts[..|acts| - 1], acts[|acts| - 1];
    if ClaimOf(s0, front, r).Some? {
      ClaimedIsPast(s0, front, r);
      PastClaimStep(Exec(s0, front), a, r);
    }
  }

  predicate IsGift(s0: System, acts: seq<Action>, gift: Option<Gift>) {
    gift.Some? ==> ClaimOf(s0, acts, gift.value.call) == Some(gift.value.token)
  }

  lemma {:induction false} GiftsAreClaims(s0: System, acts: seq<Action>, g: CartId)
    ensures IsGift(s0, acts, Landed(s0, acts, g)) && IsGift(s0, acts, LastClaim(s0, acts, g))
  {
    if acts != [] {
      var front := acts[..|acts| - 1];
      GiftsAreClaims(s0, front, g);
      var landed, claim := Landed(s0, acts, g), LastClaim(s0, acts, g);
      if landed.Some? { ClaimOfStep(s0, acts, landed.value.call); }
      if claim.Some? { ClaimOfStep(s0, acts, claim.value.call); }
    }
  }

  /** No two calls were given the same token: the source draws them at random. */
  ghost predicate TokensAreFresh(s0: System, acts: seq<Action>) {
    forall q, r :: ClaimOf(s0, acts, q).Some? && ClaimOf(s0, acts, q) == ClaimOf(s0, acts, r) ==> q == r
  }

  /**
   * Once Redis shows an owner, the two stores hold the same token exactly when the last claim Postgres granted is
   * that of the call whose commit landed.
   */
  lemma TokensAgreeExactly(s0: System, acts: seq<Action>, g: CartId)
    requires Initial(s0) && TokensAreFresh(s0, acts)
    requires g < |Exec(s0, acts).carts| && Exec(s0, acts).carts[g].blob.owner.Some?
    ensures var cart := Exec(s0, acts).carts[g]; var claim, landed := LastClaim(s0, acts, g), Landed(s0, acts, g);
            && claim.Some? && landed.Some?
            && (cart.pg.token == cart.blob.token <==> claim.value.call == landed.value.call)
  {
    CartFollowsHistory(s0, acts, g);
    GiftsAreClaims(s0, acts, g);
    LandedWasClaimed(s0, acts, g);
  }

  lemma {:induction false} CommitMeansClaim(s0: System, acts: seq<Action>, r: nat)
    requires Initial(s0) && r < |Exec(s0, acts).runs| && Exec(s0, acts).runs[r].pc.Commit?
    ensures LastClaim(s0, acts, Exec(s0, acts).runs[r].cart).Some?
  {
    var front, a := acts[..|acts| - 1], acts[|acts| - 1];
    CommitEntered(Exec(s0, front), a, r);
    CartAssociationTheorems.NextKeepsCall(Exec(s0, front), a, r);
    if !a.Advance? || a.run != r { CommitMeansClaim(s0, front, r); }
  }

  lemma {:induction false} LandedWasClaimed(s0: System, acts: seq<Action>, g: CartId)
    requires Initial(s0)
    ensures Landed(s0, acts, g).Some? ==> LastClaim(s0, acts, g).Some?
  {
    if acts != [] {
      var front, a := acts[..|acts| - 1], acts[|acts| - 1];
      LandedWasClaimed(s0, front, g);
      if IsCommit(Exec(s0, front), a, g) { CommitMeansClaim(s0, front, a.run); }
    }
  }

  // ---------------------------------------------------------------- a schedule in which they part

  const OLD: Cart := Cart(PgRow(Active, None, "a"), Blob("t", None, "a", "EUR", Active, []))
  const GRANTED: Cart := OLD.(pg := PgRow(Active, Some(7), "n0"))
  const REGRANTED: Cart := OLD.(pg := PgRow(Active, Some(7), "n1"))
  const PARTED: Cart := Cart(PgRow(Active, Some(7), "n1"), Blob("t", Some(7), "n0", "EUR", Active, []))

  /** Ann's two calls on her one cart. */
  function TwoLogins(cart: Cart, pc0: Pc, pc1: Pc): System {
    System("t", [cart], [Run(0, Some("a"), ANN, pc0), Run(0, Some("a"), ANN, pc1)], [], [])
  }

  /** Some schedule leads from the empty system to `s`. */
  ghost predicate Reachable(s: System) { exists acts :: Exec(EMPTY, acts) == s }

  lemma Move(s: System, a: Action, s': System)
    requires Reachable(s) && Next(s, a) == s'
    ensures Reachable(s')
  {
    var acts :| Exec(EMPTY, acts) == s;
    assert (acts + [a])[..|acts|] == acts;
    assert Exec(EMPTY, acts + [a]) == s';
  }

  lemma BothBegin()
    ensures Reachable(TwoLogins(OLD, Start, Start))
  {
    assert Exec(EMPTY, []) == EMPTY;
    Move(EMPTY, Create("a", "EUR"), System("t", [OLD], [], [], []));
    var one := System("t", [OLD], [Run(0, Some("a"), ANN, Start)], [], []);
    Move(System("t", [OLD], [], [], []), Begin(0, Some("a"), ANN), one);
    Move(one, Begin(0, Some("a"), ANN), TwoLogins(OLD, Start, Start));
  }

  lemma BothRead()
    ensures Reachable(TwoLogins(OLD, Claim("EUR"), Claim("EUR")))
  {
    BothBegin();
    Move(TwoLogins(OLD, Start, Start), Advance(0, CALM), TwoLogins(OLD, Claim("EUR"), Start));
    Move(TwoLogins(OLD, Claim("EUR"), Start), Advance(1, CALM), TwoLogins(OLD, Claim("EUR"), Claim("EUR")));
  }

  lemma BothClaim()
    ensures Reachable(TwoLogins(REGRANTED, Commit("n0"), Commit("n1")))
  {
    BothRead();
    var granted := TwoLogins(GRANTED, Commit("n0"), Claim("EUR"));
    assert [OLD][0 := GRANTED] == [GRANTED] && !HasOtherActive([OLD], 0, 7);
    Move(TwoLogins(OLD, Claim("EUR"), Claim("EUR")), Advance(0, CALM.(newToken := "n0")), granted);
    assert [GRANTED][0 := REGRANTED] == [REGRANTED] && !HasOtherActive([GRANTED], 0, 7);
    Move(granted, Advance(1, CALM.(newToken := "n1")), TwoLogins(REGRANTED, Commit("n0"), Commit("n1")));
  }

  /** Both claims are granted before either commits: Postgres keeps the second token, Redis the first, for good. */
  lemma TokensCanPart()
    ensures Reachable(TwoLogins(PARTED, Returned(Adopted), Failed(Forbidden)))
  {
    BothClaim();
    assert [REGRANTED][0 := PARTED] == [PARTED];
    var landed := TwoLogins(PARTED, Returned(Adopted), Commit("n1"));
    Move(TwoLogins(REGRANTED, Commit("n0"), Commit("n1")), Advance(0, CALM), landed);
    Move(landed, Advance(1, CALM), TwoLogins(PARTED, Returned(Adopted), Failed(Forbidden)));
  }
}
