/** What the guards along the protocol are worth: each was checked once, and its outcome still holds steps later. */
module CartAssociationGuards {
  import opened Wrappers
  import opened CartAuthorise
  import opened CartAssociation
  import opened CartAssociationSafety
  import CartAssociationTheorems

  // ---------------------------------------------------------------- what carts keep for good

  /** A cart never changes tenant or currency, and its token only together with its owner. */
  ghost predicate IdentityKept(a: Cart, b: Cart) {
    && b.blob.tenantId == a.blob.tenantId && b.blob.currency == a.blob.currency
    && (b.blob.token != a.blob.token ==> b.blob.owner.Some?)
  }

  ghost predicate AllKept(carts: seq<Cart>, carts': seq<Cart>) {
    && Evolves(carts, carts')
    && forall i :: 0 <= i < |carts| ==> IdentityKept(carts[i], carts'[i])
  }

  /** What a call has established about its cart by the time it is at its program counter. */
  ghost predicate Established(tenant: string, carts: seq<Cart>, run: Run) {
    && (!run.pc.Start? && !run.pc.Failed? ==> run.customer.tenantId == tenant && run.cart < |carts|)
    && match run.pc
       case Claim(currency) => currency == carts[run.cart].blob.currency && TokenGood(carts, run)
       case Commit(_) => TokenGood(carts, run)
       case FindWinner(currency) => currency == carts[run.cart].blob.currency
       case CheckWinner(currency, _) => currency == carts[run.cart].blob.currency
       case TryAbandon(w) => SameCurrency(carts, run, w)
       case Capture(w) => SameCurrency(carts, run, w)
       case Merge(w, _) => SameCurrency(carts, run, w)
       case Returned(result) => result.MergedInto? ==> SameCurrency(carts, run, result.winner)
       case ReadAfterBlocked => !UnownedOrMine(carts[run.cart].pg, run.customer.id)
       case ReadAfterRefused => !UnownedOrMine(carts[run.cart].pg, run.customer.id)
       case _ => true
  }

  ghost predicate SameCurrency(carts: seq<Cart>, run: Run, w: CartId) {
    w < |carts| && run.cart < |carts| && carts[w].blob.currency == carts[run.cart].blob.currency
  }

  /** As long as nobody has adopted the cart in Redis, the token that opened it still does. */
  ghost predicate TokenGood(carts: seq<Cart>, run: Run) {
    run.cart < |carts| && Presented(run.token)
    && (carts[run.cart].blob.owner.None? ==> carts[run.cart].blob.token == run.token.value)
  }

  ghost predicate GuardInv(s: System) {
    && Inv(s)
    && (forall i :: 0 <= i < |s.carts| ==> s.carts[i].blob.tenantId == s.tenant)
    && (forall r :: 0 <= r < |s.runs| ==> Established(s.tenant, s.carts, s.runs[r]))
  }

  lemma EstablishedStable(tenant: string, carts: seq<Cart>, carts': seq<Cart>, run: Run)
    requires Established(tenant, carts, run) && AllKept(carts, carts')
    requires forall i :: 0 <= i < |carts| ==> CartOk(carts[i])
    ensures Established(tenant, carts', run)
  {
    if run.cart < |carts| {
      var a, b := carts[run.cart], carts'[run.cart];
      assert CartEvolves(a, b) && IdentityKept(a, b);
    }
  }

  lemma StepKeepsBlobs(tenant: string, carts: seq<Cart>, run: Run, o: Oracle)
    ensures var e := StepRun(tenant, carts, run, o);
            |e.carts| == |carts| && forall i :: 0 <= i < |carts| ==> IdentityKept(carts[i], e.carts[i])
  {}

  lemma StepKeepsIdentity(tenant: string, carts: seq<Cart>, run: Run, o: Oracle)
    requires GoodStart(carts, run)
    ensures AllKept(carts, StepRun(tenant, carts, run, o).carts)
  {
    var e := StepRun(tenant, carts, run, o);
    assert Evolves(carts, e.carts) by { StepKeeps(tenant, carts, run, o); }
    StepKeepsBlobs(tenant, carts, run, o);
  }

  lemma StepEstablishes(tenant: string, carts: seq<Cart>, run: Run, o: Oracle)
    requires GoodStart(carts, run) && Established(tenant, carts, run)
    ensures var e := StepRun(tenant, carts, run, o); Established(tenant, e.carts, e.run)
  {
    if o.fault || !Writing(run) {
      ReadEstablishes(tenant, carts, run, o);
    } else {
      StepKeepsIdentity(tenant, carts, run, o);
    }
  }

  lemma ReadEstablishes(tenant: string, carts: seq<Cart>, run: Run, o: Oracle)
    requires GoodStart(carts, run) && Established(tenant, carts, run) && (o.fault || !Writing(run))
    ensures var e := StepRun(tenant, carts, run, o); e.carts == carts && Established(tenant, e.carts, e.run)
  {}

  lemma NextKeepsIdentity(s: System, a: Action)
    requires Inv(s)
    ensures AllKept(s.carts, Next(s, a).carts)
  {
    NextKeeps(s, a);
    if a.Advance? && a.run < |s.runs| { StepKeepsIdentity(s.tenant, s.carts, s.runs[a.run], a.oracle); }
  }

  lemma NextEstablished(s: System, a: Action, r: nat)
    requires GuardInv(s) && r < |Next(s, a).runs| && AllKept(s.carts, Next(s, a).carts)
    ensures Established(s.tenant, Next(s, a).carts, Next(s, a).runs[r])
  {
    if r < |s.runs| {
      if a.Advance? && a.run == r {
        StepEstablishes(s.tenant, s.carts, s.runs[r], a.oracle);
      } else {
        EstablishedStable(s.tenant, s.carts, Next(s, a).carts, s.runs[r]);
      }
    }
  }

  lemma NextKeepsGuards(s: System, a: Action)
    requires GuardInv(s)
    ensures GuardInv(Next(s, a))
  {
    var s' := Next(s, a);
    NextKeeps(s, a);
    NextKeepsIdentity(s, a);
    forall r | 0 <= r < |s'.runs| ensures Established(s.tenant, s'.carts, s'.runs[r]) {
      NextEstablished(s, a, r);
    }
  }

  lemma {:induction false} ExecKeepsGuards(s0: System, acts: seq<Action>)
    requires Initial(s0)
    ensures GuardInv(Exec(s0, acts)) && Exec(s0, acts).tenant == s0.tenant
  {
    if acts != [] {
      ExecKeepsGuards(s0, acts[..|acts| - 1]);
      NextKeepsGuards(Exec(s0, acts[..|acts| - 1]), acts[|acts| - 1]);
    }
  }

  // ---------------------------------------------------------------- the theorems

  /** No merge ever mixes currencies or tenants, although the check is steps before the merge and is never repeated. */
  lemma MergesMatch(s0: System, acts: seq<Action>, r: nat)
    requires Initial(s0) && r < |Exec(s0, acts).runs| && Exec(s0, acts).runs[r].pc.Returned?
    ensures var s := Exec(s0, acts); var run := s.runs[r];
            && run.customer.tenantId == s0.tenant && run.cart < |s.carts|
            && (run.pc.result.MergedInto? ==> SameCurrency(s.carts, run, run.pc.result.winner))
  {
    ExecKeepsGuards(s0, acts);
  }

  /**
   * A claim that Postgres accepted always lands: short of a fault, after the commit step Redis shows the claiming
   * customer.  The step itself is refused only if another call of that same customer has landed already.
   */
  lemma ClaimAlwaysLands(s0: System, acts: seq<Action>, r: nat, o: Oracle)
    requires Initial(s0) && r < |Exec(s0, acts).runs| && Exec(s0, acts).runs[r].pc.Commit? && !o.fault
    ensures var s := Exec(s0, acts); var run := s.runs[r]; var s' := Next(s, Advance(r, o));
            && run.cart < |s.carts|
               && s'.carts[run.cart].blob.owner == Some(run.customer.id) == s'.carts[run.cart].pg.owner
            && (s'.runs[r].pc.Failed? ==>
               s'.runs[r].pc == Failed(Forbidden) && s.carts[run.cart].blob.owner == Some(run.customer.id))
  {
    ExecKeepsGuards(s0, acts);
    var s := Exec(s0, acts);
    assert RunOk(s.carts, s.runs[r]) && CartOk(s.carts[s.runs[r].cart]) && Established(s.tenant, s.carts, s.runs[r]);
  }

  /** An adoption that lands hands the cart over: the guest token no longer opens it, the customer's JWT does. */
  lemma AdoptionHandsOver(s0: System, acts: seq<Action>, r: nat, o: Oracle)
    requires Initial(s0) && r < |Exec(s0, acts).runs| && Exec(s0, acts).runs[r].pc.Commit? && !o.fault
    requires var s := Exec(s0, acts); s.runs[r].cart < |s.carts| && s.carts[s.runs[r].cart].blob.owner.None?
    requires Exec(s0, acts).runs[r].token != Some(Exec(s0, acts).runs[r].pc.newToken)
    ensures var s := Exec(s0, acts); var run := s.runs[r]; var s' := Next(s, Advance(r, o));
            && s'.runs[r].pc == Returned(Adopted)
            && Authorise(Some(s'.carts[run.cart].blob), run.token, None) == Some(Forbidden)
            && Authorise(Some(s'.carts[run.cart].blob), None, Some(run.customer)).None?
            && s'.carts[run.cart].blob.items == s.carts[run.cart].blob.items
  {
    ExecKeepsGuards(s0, acts);
    var s := Exec(s0, acts);
    assert RunOk(s.carts, s.runs[r]) && CartOk(s.carts[s.runs[r].cart]) && Established(s.tenant, s.carts, s.runs[r]);
  }

  /**
   * While nothing but the protocol ends a cart, a call that Postgres blocked or refused always fails, for good
   * reason: 403 exactly when Redis already shows the other owner, otherwise the retryable 409.  "Raced to ours" takes
   * an order in between: `CartAssociationOutsideTheorems.RacedToOursExactly`.
   */
  lemma BlockedCallsFail(s0: System, acts: seq<Action>, r: nat, o: Oracle)
    requires Initial(s0) && r < |Exec(s0, acts).runs| && !o.fault
    requires Exec(s0, acts).runs[r].pc.ReadAfterBlocked? || Exec(s0, acts).runs[r].pc.ReadAfterRefused?
    ensures var s := Exec(s0, acts); var run := s.runs[r]; var s' := Next(s, Advance(r, o));
            && run.cart < |s.carts|
            && (s.carts[run.cart].pg.status == Abandoned
               || (s.carts[run.cart].pg.owner.Some? && s.carts[run.cart].pg.owner.value != run.customer.id))
            && s'.runs[r].pc == Failed(if s.carts[run.cart].blob.owner.Some? then Forbidden else Conflict)
  {
    ExecKeepsGuards(s0, acts);
    var s := Exec(s0, acts);
    assert Established(s.tenant, s.carts, s.runs[r]) && CartOk(s.carts[s.runs[r].cart]);
  }

  // ---------------------------------------------------------------- a claim that did not land

  /** Action `a` is a commit step of cart `w` that lands. */
  predicate IsAdoption(s: System, a: Action, w: CartId) {
    && a.Advance? && a.run < |s.runs| && s.runs[a.run].cart == w && s.runs[a.run].pc.Commit?
    && Next(s, a).runs[a.run].pc == Returned(Adopted)
  }

  predicate AdoptedSince(s: System, acts: seq<Action>, w: CartId) {
    if acts == [] then false
    else
      var front := acts[..|acts| - 1];
      AdoptedSince(s, front, w) || IsAdoption(Exec(s, front), acts[|acts| - 1], w)
  }

  lemma NextShowsOwner(s: System, a: Action, w: CartId)
    requires Inv(s) && w < |s.carts|
    ensures w < |Next(s, a).carts|
    ensures Next(s, a).carts[w].blob.owner.Some? <==> s.carts[w].blob.owner.Some? || IsAdoption(s, a, w)
  {
    if a.Advance? && a.run < |s.runs| { assert RunOk(s.carts, s.runs[a.run]); }
  }

  lemma {:induction false} OwnerShownExactly(s: System, acts: seq<Action>, w: CartId)
    requires Inv(s) && w < |s.carts| && s.carts[w].blob.owner.None?
    ensures w < |Exec(s, acts).carts|
    ensures Exec(s, acts).carts[w].blob.owner.Some? <==> AdoptedSince(s, acts, w)
  {
    if acts != [] {
      OwnerShownExactly(s, acts[..|acts| - 1], w);
      ExecKeeps(s, acts[..|acts| - 1]);
      NextShowsOwner(Exec(s, acts[..|acts| - 1]), acts[|acts| - 1], w);
    }
  }

  /** A commit step that throws leaves Postgres with the owner and Redis as it was. */
  lemma FaultLeavesSplit(s: System, q: nat, o: Oracle)
    requires Inv(s) && q < |s.runs| && s.runs[q].pc.Commit? && o.fault
    ensures var s' := Next(s, Advance(q, o));
            Inv(s') && s'.carts == s.carts && Owns(s'.carts, s.runs[q].cart, s.runs[q].customer.id)
  {
    assert RunOk(s.carts, s.runs[q]);
    NextKeeps(s, Advance(q, o));
  }

  /**
   * After a commit step that threw, over every continuation: a merge of another guest cart of that customer succeeds
   * only once some call has committed the split cart to Redis after all; until then every one of them captures the
   * guest cart and is refused, and the captured lines are left behind.
   */
  lemma FaultStrandsMerges(s0: System, acts: seq<Action>, q: nat, fault: Oracle, more: seq<Action>, r: nat, o: Oracle)
    requires Initial(s0) && q < |Exec(s0, acts).runs| && Exec(s0, acts).runs[q].pc.Commit? && fault.fault && !o.fault
    requires var s := Exec(s0, acts); s.runs[q].cart < |s.carts| && s.carts[s.runs[q].cart].blob.owner.None?
    requires var s := Exec(Next(Exec(s0, acts), Advance(q, fault)), more);
             r < |s.runs| && s.runs[r].pc.Merge? && s.runs[r].customer.id == Exec(s0, acts).runs[q].customer.id
    ensures var w := Exec(s0, acts).runs[q].cart; var split := Next(Exec(s0, acts), Advance(q, fault));
            var s := Exec(split, more); var run := s.runs[r]; var s' := Next(s, Advance(r, o));
            && run.pc.winner == w < |s.carts|
            && (s'.runs[r].pc.Returned? <==>
                  AdoptedSince(split, more, w)
                  && CartAssociationTheorems.OnSale(MergedLines(run.pc.captured, s.carts[w].blob, o.now), o.stock))
            && (!s'.runs[r].pc.Returned? ==>
                  s'.runs[r].pc.Failed? && s'.carts == s.carts && s'.dropped == s.dropped + run.pc.captured)
  {
    var w := Exec(s0, acts).runs[q].cart;
    var split := Next(Exec(s0, acts), Advance(q, fault));
    ExecKeeps(s0, acts);
    FaultLeavesSplit(Exec(s0, acts), q, fault);
    ExecKeeps(split, more);
    CartAssociationTheorems.OwnerIsPermanent(split, more, w, Exec(s0, acts).runs[q].customer.id);
    OwnerShownExactly(split, more, w);
    WinnerIs(Exec(split, more), r, w);
    CartAssociationTheorems.MergeStepExactly(Exec(split, more), r, o);
  }

  lemma WinnerIs(s: System, r: nat, w: CartId)
    requires Inv(s) && r < |s.runs| && s.runs[r].pc.Merge? && Owns(s.carts, w, s.runs[r].customer.id)
    ensures s.runs[r].pc.winner == w
  {
    assert RunOk(s.carts, s.runs[r]);
  }
}
