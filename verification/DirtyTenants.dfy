/**
 * Finding the tenants that have a dirty set: the SCAN loop and its key parse
 * (`apps/api/src/cart/cart-flush.repository.ts`).
 */
module DirtyTenants {
  import opened Wrappers
  import opened Strings

  /** `keys.cartDirty` (`apps/api/src/redis/keys.ts`). */
  function CartDirtyKey(tenantId: string): string { Wrap("sovecom", "t", tenantId, "cart", "dirty") }

  /** Five colon-joined pieces. */
  function Wrap(a: string, b: string, middle: string, c: string, d: string): string {
    (a + [':'] + b) + [':'] + middle + [':'] + (c + [':'] + d)
  }

  /** The key, written out. */
  lemma KeySpeltOut(tenantId: string)
    ensures CartDirtyKey(tenantId) == "sovecom:t:" + tenantId + ":cart:dirty"
  {
    assert "sovecom" + [':'] + "t" + [':'] == "sovecom:t:";
    assert [':'] + ("cart" + [':'] + "dirty") == ":cart:dirty";
  }

  /** The MATCH pattern `sovecom:t:*:cart:dirty`, with `middle` under the star. */
  predicate MatchesPattern(key: string, middle: string) { key == CartDirtyKey(middle) }

  function ParseKey(key: string): Option<string> {
    var parts := Split(key, ':');
    if |parts| == 5 && parts[3] == "cart" && parts[4] == "dirty" then Some(parts[2]) else None
  }

  lemma WrapParts(a: string, b: string, middle: string, c: string, d: string)
    requires Lacks(a, ':') && Lacks(b, ':') && Lacks(c, ':') && Lacks(d, ':')
    ensures Split(Wrap(a, b, middle, c, d), ':') == [a, b] + Split(middle, ':') + [c, d]
  {
    SplitClean(a, ':');
    SplitClean(b, ':');
    SplitClean(c, ':');
    SplitClean(d, ':');
    var front, back := a + [':'] + b, c + [':'] + d;
    SplitConcat(a, b, ':');
    SplitConcat(c, d, ':');
    SplitConcat(front, middle, ':');
    SplitConcat(front + [':'] + middle, back, ':');
    assert [a] + [b] == [a, b] && [c] + [d] == [c, d];
  }

  lemma KeyParts(tenantId: string)
    ensures Split(CartDirtyKey(tenantId), ':') == ["sovecom", "t"] + Split(tenantId, ':') + ["cart", "dirty"]
  {
    WrapParts("sovecom", "t", tenantId, "cart", "dirty");
  }

  /** The parse inverts the key printer exactly for tenant ids without a colon, and finds nothing for the others. */
  lemma ParseInvertsPrinter(tenantId: string)
    ensures ParseKey(CartDirtyKey(tenantId)) == if Lacks(tenantId, ':') then Some(tenantId) else None
  {
    KeyParts(tenantId);
    SplitCount(tenantId, ':');
    if Lacks(tenantId, ':') { SplitClean(tenantId, ':'); }
  }

  /** Any string at all parses to a tenant exactly when it is five pieces without a colon, the last two as expected. */
  lemma ParsesExactly(key: string, tenantId: string)
    ensures ParseKey(key) == Some(tenantId)
            <==> Lacks(tenantId, ':')
                 && exists a, b :: Lacks(a, ':') && Lacks(b, ':') && key == Join([a, b, tenantId, "cart", "dirty"], ':')
  {
    var parts := Split(key, ':');
    if ParseKey(key) == Some(tenantId) {
      PartsAreClean(key, ':');
      JoinSplit(key, ':');
      assert parts == [parts[0], parts[1], tenantId, "cart", "dirty"];
    }
    forall a, b | Lacks(a, ':') && Lacks(b, ':') && Lacks(tenantId, ':')
        && key == Join([a, b, tenantId, "cart", "dirty"], ':')
      ensures ParseKey(key) == Some(tenantId)
    {
      SplitJoin([a, b, tenantId, "cart", "dirty"], ':');
    }
  }

  /** A key SCAN may return parses to a tenant only if it is that tenant's key. */
  lemma ParsedKeyIsPrinted(key: string, middle: string, tenantId: string)
    requires MatchesPattern(key, middle) && ParseKey(key) == Some(tenantId)
    ensures key == CartDirtyKey(tenantId) && Lacks(tenantId, ':')
  {
    KeyParts(middle);
    SplitCount(middle, ':');
    SplitClean(middle, ':');
  }

  /** One reply of SCAN. */
  datatype Reply = Reply(next: string, batch: seq<string>)

  /** The replies of one complete iteration: the cursor comes back as "0" with the last one. */
  predicate CompleteScan(replies: seq<Reply>) {
    |replies| > 0 && replies[|replies| - 1].next == "0" && forall i :: 0 <= i < |replies| - 1 ==> replies[i].next != "0"
  }

  /** Some key in the first `n` replies (of reply `n`, the first `m` keys) parses to `t`. */
  ghost predicate SeenIn(replies: seq<Reply>, n: nat, m: nat, t: string)
    requires n <= |replies| && (n < |replies| ==> m <= |replies[n].batch|)
  {
    || (exists i, j :: 0 <= i < n && 0 <= j < |replies[i].batch| && ParseKey(replies[i].batch[j]) == Some(t))
    || (n < |replies| && exists j :: 0 <= j < m && ParseKey(replies[n].batch[j]) == Some(t))
  }

  /** The do/while over the cursor; `found` is the source's `Set`, in insertion order. */
  method GetDirtyTenantIds(replies: seq<Reply>) returns (found: seq<string>)
    requires CompleteScan(replies)
    ensures NoRepeats(found)
    ensures forall t :: t in found <==> SeenIn(replies, |replies|, 0, t)
  {
    found := [];
    var cursor := "";
    var n := 0;
    while cursor != "0"
      invariant 0 <= n <= |replies| && (cursor == "0" <==> n == |replies|)
      invariant NoRepeats(found)
      invariant forall t :: t in found <==> SeenIn(replies, n, 0, t)
      decreases |replies| - n
    {
      var batch := replies[n].batch;
      for m := 0 to |batch|
        invariant NoRepeats(found)
        invariant forall t :: t in found <==> SeenIn(replies, n, m, t)
      {
        var parsed := ParseKey(batch[m]);
        if parsed.Some? && parsed.value !in found {
          found := found + [parsed.value];
        }
      }
      cursor := replies[n].next;
      n := n + 1;
    }
  }

  /** Some reply holds the key of tenant `t`. */
  ghost predicate Returned(replies: seq<Reply>, t: string) {
    exists i, j :: 0 <= i < |replies| && 0 <= j < |replies[i].batch| && replies[i].batch[j] == CartDirtyKey(t)
  }

  /**
   * SCAN promises to return a key that exists throughout at least once, possibly often.  Then every such tenant
   * whose id has no colon is found, exactly once, and every tenant found owns a key that was returned.
   */
  lemma DiscoveryIsComplete(replies: seq<Reply>, found: seq<string>, throughout: set<string>)
    requires CompleteScan(replies) && NoRepeats(found) && forall t :: t in found <==> SeenIn(replies, |replies|, 0, t)
    requires forall i, j :: 0 <= i < |replies| && 0 <= j < |replies[i].batch| ==>
             exists m :: MatchesPattern(replies[i].batch[j], m)
    requires forall t :: t in throughout ==> Returned(replies, t)
    ensures forall t :: t in throughout ==> (Lacks(t, ':') <==> t in found)
    ensures forall t :: t in found ==> Returned(replies, t)
  {
    forall t | t in found
      ensures Lacks(t, ':') && Returned(replies, t)
    {
      var i, j :| 0 <= i < |replies| && 0 <= j < |replies[i].batch| && ParseKey(replies[i].batch[j]) == Some(t);
      var m :| MatchesPattern(replies[i].batch[j], m);
      ParsedKeyIsPrinted(replies[i].batch[j], m, t);
    }
    forall t | t in throughout && Lacks(t, ':') ensures t in found {
      ParseInvertsPrinter(t);
    }
  }
}
