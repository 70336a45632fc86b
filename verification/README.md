# SovEcom: the cart protocols, and four small cores, in Dafny

A model of the concurrency layer of the SovEcom cart (guest-to-customer association, write-behind flush, the pool of
WATCH connections, the item merge) and of four stand-alone cores: the category forest, the audit CSV export, the depth
check of theme templates, and the string grammars of the two SDKs. `dafny verify dfyconfig.toml` checks everything.

## How it is built

| files | what they hold |
|---|---|
| `CartLines`, `CartMerge` | cart lines and units; `mergeCartItems` over an insertion-ordered map, and a loop-free description of its result |
| `CartAuthorise` | `authoriseCart` and the Redis blob |
| `CartAssociation` | the association as a protocol: any number of calls, each with a program counter, interleaved at every `await` over Postgres rows and Redis blobs; shoppers create carts and add, change and remove lines in between; any step may throw |
| `CartAssociationSafety`, `CartAssociationTheorems`, `CartAssociationGuards`, `CartAssociationUnits` | the invariant; ownership, at-most-once and losers; what early guards are worth later; where every unit goes |
| `CartAssociationMergedCart`, `CartAssociationEdits`, `CartAssociationTokens` | the winner after a merge, line by line; edits, line by line; the token in either store |
| `CartAssociationOutside`, `CartAssociationOutsideHistory`, `CartAssociationOutsideTheorems`, `CartAssociationOutsideSchedules` | the same protocol among order placement and the flush, which also write carts: what survives both; what is outstanding and what the unique index stops; when each of six guarantees that do not survive fails; schedules in which they do |
| `CartAssociateService` | `associateCustomer` as an object that assigns cart fields and loops over reservations, proved to be the protocol with one call running alone, whichever await throws |
| `CartAssociationSteps`, `CartAssociationAlone` | what every step does in every reachable state; all outcomes of a call running alone |
| `CartFlush`, `DirtyTenants` | one flusher among writers, the loop of `flushDirty`, and the SCAN for tenants |
| `CartWatchPool` | the pool object between its awaits, and all interleavings of its callers |
| `CategoryTree` | `buildTree` on linked nodes |
| `AuditCsv` | the export and a parser for section 2 of RFC 4180 |
| `ThemeTemplate`, `Regex`, `TableNamespace`, `TemplatePath`, `Strings` | templates and grammars; regular expressions are given as syntax trees with their meaning as sets of strings |

Schedules are lists of actions and a run is the state after one (`Exec`), so a statement about `Exec(s0, acts)` for an
initial `s0` and every `acts` is a statement about every reachable state.

`mutate` is one atomic read-modify-write of one blob (`apps/api/src/cart/cart.repository.ts:121-207`, first attempt);
`claimCustomer` and `tryAbandonOwnGuestCart` are one guarded SQL update each; the partial unique index is
`apps/api/src/database/schema/carts.ts:65-67`. Clocks, random tokens, stock and faults are parameters of the steps.

## Where code and comments part

- The merge can lose a cart without any fault. If a second login of the same customer finds the winner after Postgres has
  given it to him but before Redis shows it, the guest cart is captured and the merge is refused
  (`CapturedUnitsCanBeLost`). `MergeSucceedsExactly` says exactly when; `UnitsAreConserved` accounts for every unit. After
  one fault at the commit step this is the fate of every later merge until that cart is associated again
  (`FaultStrandsMerges`).
- The token is "decided up front so PG and Redis agree", but two calls of one customer on one cart can both be granted
  their claims, and then Postgres keeps the last token and Redis the first that lands (`TokensAgreeExactly`,
  `TokensCanPart`).
- The pool's "hard ceiling" of 64 connections is checked before an `await` and counted after it, and a connection stops
  being counted before its QUIT has ended. The counters keep the ceilings exactly when connects never overlap; the open
  connections keep theirs exactly when, besides, no QUIT is left outstanding. With at most k connects pending and q QUITs outstanding
  the exact bound is 63 + k + q, and 15 + k for pooled ones.
- The recheck in `flushDirty` compares stamps, not states. A cart loses its flag exactly when the SREM follows a write that
  differs from the state the flusher found (`FlushIsExact`): for distinct milliseconds, a write between the recheck GET and
  the SREM (`LostOnlyInWindow`); otherwise also a write of the same millisecond before it (`SameMillisecondWriteIsLost`).
- `associateCustomer` re-reads a blocked cart in case it "raced to ours". Associations alone never lead there; it takes an
  order of that cart in between (`RacedToOursExactly`, `RacedToOursHappens`), and the caller then gets the ordered cart.
- "We never capture and destroy a stranger's just-adopted cart" fails when a flush writes a blob read while still active
  over the abandoned row (`CaptureRobsExactly`, `StrangersCartIsCaptured`). For the same reason one guest cart can be
  captured twice (`CapturedTwice`), though only the first capture takes anything (`TakenAndGivenAtMostOnce`), and a cart can
  be ordered twice (`OrderedTwice`): an order stays on record exactly until a flush writes the row (`OrderStandsExactly`),
  and every reopening gives the row one more life (`RowLives`).
- After an order of the winner the merge may abandon a cart its own customer has claimed (`OwnCartAbandonedExactly`,
  `OwnCartIsAbandoned`).
- The merge re-checks that the winner is active, but in Redis, which orders do not write: it then puts the units into an
  ordered cart and reports success (`MergesIntoEndedExactly`, `MergedIntoAnOrder`).
- Refusals are meant to reveal no cart's existence, but a caller who shows any credential gets 404 for an absent cart and
  403 for a live one (`RefusalHidesExistenceExactly`).
- Two comments in `packages/theme-sdk/src/template.ts` count depth differently (lines 26-29 and 150-153); the model
  follows the code, where sections at depth 0 and 1 may declare regions.
- `createNamespacedTable` promises names that pass the manifest check, but measures no lengths: they pass exactly when the
  module name has at most 64 and the table name at most 128 characters. Conversely the manifest accepts suffixes that start
  with `mod_`, which the helper refuses.
- Categories on or below a parent cycle silently disappear from the forest, and an empty `parentId` counts as none. The API
  refuses re-parenting that would close a cycle, so only data from elsewhere reaches this case.
- The section bounds of templates allow 16.8 million sections, but a text under the byte cap holds at most 4,993
  (`ParsedSizeBound`, `ParsedSizeIsAttained`).

## Model

| member | source | states |
|---|---|---|
| `CartAssociationTheorems.OwnershipSafety` | apps/api/src/cart/cart-associate.service.ts:72-130 | in every reachable state of any number of interleaved calls an owner shown in Redis is the Postgres owner, an owned cart is active in both stores, and no customer has two carts in either store |
| `CartAssociationTheorems.OwnerIsPermanent` | apps/api/src/cart/cart.repository.ts:262-312 | a cart Postgres gives to a customer stays his and active in every continuation: no claim overwrites it, no merge abandons it |
| `CartAssociationTheorems.CapturedAndMergedAtMostOnce` | apps/api/src/cart/cart-associate.service.ts:163-218 | over all calls a guest cart is captured at most once, and what was captured enters at most one winner, once |
| `CartAssociationTheorems.NoEditAfterCapture` | apps/api/src/cart/cart-associate.service.ts:177-187 | after the capture no add, update or removal on that cart succeeds, whatever credential is shown |
| `CartAssociationTheorems.LoserChangesNothing` | apps/api/src/cart/cart-associate.service.ts:132-142 | a call whose cart Postgres gave to another customer has never written to either store, has not succeeded, and its next step neither writes nor succeeds |
| `CartAssociationTheorems.EveryStepProgresses` | apps/api/src/cart/cart-associate.service.ts:53-222 | every own step of an unfinished call lowers its rank, so a call ends within seven own steps however the others interleave |
| `CartAssociationTheorems.CaptureGuardNeverFires` | apps/api/src/cart/cart-associate.service.ts:175-187 | after a successful abandon the blob is live and unowned, so the stranger guard never fires and the capture takes all items |
| `CartAssociationTheorems.MergeSucceedsExactly` | apps/api/src/cart/cart-associate.service.ts:189-218 | short of a fault the merge succeeds iff the winner's adoption has reached Redis and every merged variant is on sale; otherwise nothing is written and the captured lines are gone |
| `CartAssociationTheorems.WriterHoldsItsCart` | apps/api/src/cart/cart-associate.service.ts:76-187 | any step of a call that writes leaves its guest cart either its customer's or abandoned without an owner |
| `CartAssociationSteps.EveryStepExactly` | apps/api/src/cart/cart-associate.service.ts:53-222 | which branch each step that does not throw takes in every reachable state, and what it leaves in both stores; among associations alone no winner vanishes or is inactive, no guest blob vanishes, and nothing races to ours |
| `CartAssociationSafety.ClaimKeeps` | apps/api/src/cart/cart.repository.ts:262-286 | the claim keeps one active cart per customer, and on a unique violation the customer does own another cart |
| `CartAssociationSafety.CommitKeeps` | apps/api/src/cart/cart-associate.service.ts:94-130 | writing the owner to Redis never disagrees with Postgres, whatever happened since the claim |
| `CartAssociationSafety.TryAbandonKeeps` | apps/api/src/cart/cart.repository.ts:294-312 | the abandon hits only an unowned cart: neither a stranger's nor the customer's own claimed one |
| `CartAssociationSafety.CaptureKeeps` | apps/api/src/cart/cart-associate.service.ts:175-187 | the capture keeps the invariant, empties the call's own guest blob and leaves every other cart as it was |
| `CartAssociationSafety.MergeKeeps` | apps/api/src/cart/cart-associate.service.ts:189-218 | the merge leaves the winner with one positive line per variant and touches nothing but the winner's lines |
| `CartAssociationSafety.StepKeeps` | apps/api/src/cart/cart-associate.service.ts:53-222 | every step of `associateCustomer` keeps the protocol invariant |
| `CartAssociationSafety.ExecKeeps` | apps/api/src/cart/cart-associate.service.ts:53-222 | the invariant holds, and carts evolve monotonically, along every interleaving |
| `CartAssociationGuards.MergesMatch` | apps/api/src/cart/cart-associate.service.ts:151-161 | a call that returns belongs to the store's tenant, and a merge joins two carts of one currency although the check is several awaits earlier |
| `CartAssociationGuards.ClaimAlwaysLands` | apps/api/src/cart/cart-associate.service.ts:94-130 | short of a fault, after the commit step Redis shows the claiming customer; the step is refused only when another call of the same customer landed first |
| `CartAssociationGuards.AdoptionHandsOver` | apps/api/src/cart/cart-associate.service.ts:95-103 | after an adoption the guest token is refused, the customer's JWT is accepted, and the items are untouched |
| `CartAssociationGuards.BlockedCallsFail` | apps/api/src/cart/cart-associate.service.ts:132-142 | while only associations end carts, a blocked or refused call fails, with 403 exactly when Redis already shows the other owner and 409 otherwise; orders in between are `CartAssociationOutsideTheorems.RacedToOursExactly` |
| `CartAssociationGuards.OwnerShownExactly` | apps/api/src/cart/cart-associate.service.ts:94-130 | over every continuation Redis comes to show an owner of a cart exactly when a commit step of that cart lands |
| `CartAssociationGuards.FaultStrandsMerges` | apps/api/src/cart/cart-associate.service.ts:107-112 | after a commit step that threw, over every continuation, merges of that customer's other guest carts succeed only once some call has committed the split cart after all; until then each captures its guest cart and is refused |
| `CartAssociationTokens.TokensAgreeExactly` | apps/api/src/cart/cart-associate.service.ts:72-103 | once Redis shows an owner, both stores hold the same token iff the last claim granted is that of the call whose commit landed |
| `CartAssociationTokens.CartFollowsHistory` | apps/api/src/cart/cart-associate.service.ts:75-103 | over every interleaving Postgres keeps the token of the last granted claim and Redis that of the claim whose commit landed, or else that of the creation; currency and tenant are those of the creation |
| `CartAssociationTokens.TokensCanPart` | apps/api/src/cart/cart-associate.service.ts:72-74 | a schedule of two calls of one customer after which the stores hold different tokens |
| `CartAssociationUnits.UnitsAreConserved` | apps/api/src/cart/cart-associate.service.ts:175-218 | in every reachable state the units shoppers put in, less those they took out, are in carts, captured and in flight, or recorded as left behind by a merge step |
| `CartAssociationUnits.CapturedIsTheNet` | apps/api/src/cart/cart-associate.service.ts:175-187 | a guest cart holds, and after capture the captured list holds, exactly the net of all edits of that cart |
| `CartAssociationUnits.CompletedMerge` | apps/api/src/cart/cart-associate.service.ts:189-218 | when a merge step succeeds the winner holds of each variant what it held plus the net of all edits of the guest cart, as far as stock grants; lines are distinct and positive; the guest is empty and abandoned in both stores |
| `CartAssociationMergedCart.MergedCartExactly` | apps/api/src/cart/cart-associate.service.ts:199-207 | when a merge step returns, each line of the winner is the merged entry of its variant (customer's line data if any, else the guest's) with the granted quantity, absent when nothing is granted; the lines stand in the order of the merge, and nothing else changes |
| `CartAssociationUnits.ReservedUnits` | apps/api/src/inventory/inventory.service.ts:95-124 | the reservation loop leaves of each variant exactly what `reserve` grants for its line |
| `CartAssociationUnits.ReserveSplits` | apps/api/src/cart/cart-associate.service.ts:202-207 | granted and ungranted units of the reservation loop add up to what was asked |
| `CartAssociationUnits.EditUnits` | apps/api/src/cart/cart.service.ts:127-225 | adding, updating and removing lines change the units of every variant by exactly what the log records |
| `CartAssociationEdits.ShopsExactly` | apps/api/src/cart/cart.service.ts:127-225 | an edit goes through iff the cart is not abandoned, the caller holds its token or owns it, and nothing refuses; then an addition tops up the line of its variant or appends one, an update sets the first line of that id, a removal keeps the other lines in their order, and nothing else changes |
| `CartAssociationSafety.EditShape` | apps/api/src/cart/cart.service.ts:127-225 | no edit leaves a variant on two lines or a line without a positive quantity |
| `CartAssociationUnits.CapturedUnitsCanBeLost` | apps/api/src/cart/cart-associate.service.ts:189-198 | a concrete schedule without any fault in which captured units end in no cart |
| `CartAssociationOutside.UndisturbedIsTheProtocol` | apps/api/src/cart/cart-associate.service.ts:53-222 | without orders and flush writes the wider system is the protocol, so every theorem above speaks of it |
| `CartAssociationOutside.SafeAmongOrdersAndFlushes` | apps/api/src/cart/cart.repository.ts:361-389 | with orders and flushes between any two steps, Redis shows no owner that Postgres does not, owners never change, and no customer has two active rows |
| `CartAssociationOutside.UnitsConservedThroughout` | apps/api/src/cart/cart-associate.service.ts:175-218 | orders and flushes disturb no unit of the balance |
| `CartAssociationOutside.HappenRows` | apps/api/src/cart/cart.repository.ts:361-389 | a row's status and owner change by granted claims, orders, merge gates and flush writes, each in its own way, and by nothing else |
| `CartAssociationOutsideHistory.FlushIsStoppedExactly` | apps/api/src/database/schema/carts.ts:65-67 | the unique index stops a flush write iff it would leave some customer with two active rows |
| `CartAssociationOutsideHistory.ClaimIsStoppedExactly` | apps/api/src/cart/cart.repository.ts:262-286 | a claim finds no row iff the cart is not active or another customer's, and is stopped by the index iff it would give its customer two active rows |
| `CartAssociationOutsideHistory.OnlyARowChanges` | apps/api/src/cart/cart.repository.ts:361-389 | an order or a flush write changes status and owner of one row and nothing else in either store |
| `CartAssociationOutsideHistory.CheckoutsAreExact` | apps/api/src/orders/orders.service.ts:125-151 | the order placements under way are those that have found lines in the cart and not entered their transaction |
| `CartAssociationOutsideTheorems.RacedToOursExactly` | apps/api/src/cart/cart-associate.service.ts:132-142 | among orders a blocked call answers "raced to ours" iff the row is the caller's, no longer active, and Redis shows him; 403 iff Redis shows another; otherwise 409 |
| `CartAssociationOutsideSchedules.RacedToOursHappens` | apps/api/src/cart/cart-associate.service.ts:140 | a schedule with one order in which that answer is given, and the cart is the ordered one |
| `CartAssociationOutsideTheorems.RowLives` | apps/api/src/orders/order.repository.ts:518-525 | orders, abandons and write-offs of a row, plus one if it is active, add up to its creation plus its reopenings by flushes; so orders and abandons exceed reopenings by at most one |
| `CartAssociationOutsideTheorems.OrderStandsExactly` | apps/api/src/cart/cart.repository.ts:383-389 | a row is converted iff the last order or flush write that met it was an order |
| `CartAssociationOutsideSchedules.OrderedTwice` | apps/api/src/orders/orders.service.ts:146-151 | a schedule of two checkouts with a flush between them that orders one cart twice |
| `CartAssociationOutsideTheorems.OwnCartAbandonedExactly` | apps/api/src/cart/cart-associate.service.ts:163-173 | the merge gate abandons an owned cart iff, since the winner was found, that cart was granted to another call of the same customer (or reopened as his) and has not ended since; the winner's row has then ended |
| `CartAssociationOutsideSchedules.OwnCartIsAbandoned` | apps/api/src/cart/cart-associate.service.ts:163-173 | a schedule with one order in which a customer's earlier call abandons the cart his later call has claimed |
| `CartAssociationOutsideTheorems.MergesIntoEndedExactly` | apps/api/src/cart/cart-associate.service.ts:189-198 | the merge step returns with a winner that Postgres no longer holds active iff the winner's row ended since it was found, was not reopened, and Redis still shows it active and his, with all variants on sale |
| `CartAssociationOutsideSchedules.MergedIntoAnOrder` | apps/api/src/cart/cart-associate.service.ts:189-198 | a schedule with one order in which the call reports a merge and the units are in the ordered cart |
| `CartAssociationOutsideTheorems.CaptureRobsExactly` | apps/api/src/cart/cart-associate.service.ts:163-187 | among flushes and orders the capture empties a cart of another customer iff that customer's claim was granted since the abandon and has not reached Redis; the stranger guard fires iff it has; either takes a flush write of a blob read while active |
| `CartAssociationOutsideSchedules.StrangersCartIsCaptured` | apps/api/src/cart/cart.repository.ts:383-389 | a schedule with one flush in which that happens, and the owner is told his cart does not exist |
| `CartAssociationOutsideTheorems.TakenAndGivenAtMostOnce` | apps/api/src/cart/cart-associate.service.ts:163-218 | even among flushes and orders at most one capture of a guest cart takes anything, and what it takes enters at most one winner, once |
| `CartAssociationOutsideSchedules.CapturedTwice` | apps/api/src/cart/cart-associate.service.ts:163-187 | a schedule with one flush in which two calls capture the same guest cart, the second nothing |
| `CartAssociateService.CartState.TakeItems` | apps/api/src/cart/cart-associate.service.ts:199-207 | the merge callback leaves exactly the granted part of the merged lines, or the cart untouched when a variant is gone |
| `CartAssociateService.Service.FindById` | apps/api/src/cart/cart.repository.ts:60-89 | returns a fresh copy of the blob, or null for an absent cart |
| `CartAssociateService.Service.AssociateCustomer` | apps/api/src/cart/cart-associate.service.ts:53-222 | the whole method, with its early returns and whichever await throws, leaves the stores and ends as one call of the protocol running alone |
| `CartAssociateService.Service.MergeCaptured` | apps/api/src/cart/cart-associate.service.ts:189-218 | guard, merge and save, or the throw, end as the protocol's merge step |
| `CartAssociateService.AloneIsASchedule` | apps/api/src/cart/cart-associate.service.ts:53-222 | running alone is one of the protocol's interleavings, so every theorem above covers it |
| `CartAssociationAlone.AloneEndsExactly` | apps/api/src/cart/cart-associate.service.ts:53-222 | every outcome of a call running alone in a reachable state: turned away with 403 or 404, already the customer's, taken in Postgres, handed over in both stores, refused for its currency, or given up in both stores with its lines in the customer's other cart unless that is unshown in Redis or a variant is gone |
| `CartAssociationAlone.ThrowsExactly` | apps/api/src/cart/cart-associate.service.ts:53-222 | a call whose await after n steps throws leaves exactly what its first n steps wrote, and ends with that fault unless it was finished before |
| `CartAuthorise.AuthorisedExactly` | apps/api/src/cart/cart-authorise.ts:11-46 | access is granted exactly to the token holder and the same-tenant owner of a cart that is not abandoned |
| `CartAuthorise.AnswersExactly` | apps/api/src/cart/cart-authorise.ts:11-46 | the token holder and the owner of a live cart are let in; of the others, whoever shows a credential (an empty token is none) for a cart that is not live gets 404, everybody else 403 |
| `CartAuthorise.RefusalIsUniform` | apps/api/src/cart/cart-authorise.ts:4-5 | refusals depend only on which kinds of credential were shown and whether the cart is live, never on tokens, owners or contents |
| `CartAuthorise.RefusalHidesExistenceExactly` | apps/api/src/cart/cart-authorise.ts:17-24 | the refusal of a live cart equals that of an absent one iff no credential was shown |
| `CartMerge.MergeCartItems` | apps/api/src/cart/cart-merge.util.ts:30-57 | the two loops over the insertion-ordered map compute the function `Merged` |
| `CartMerge.OrderedMap.Set` | apps/api/src/cart/cart-merge.util.ts:37-49 | `Map.set` overwrites in place or appends, keeping table and order consistent |
| `CartMerge.OrderedMap.Get` | apps/api/src/cart/cart-merge.util.ts:44 | `Map.get` finds the entry of the variant |
| `CartMerge.MergeByVariant` | apps/api/src/cart/cart-merge.util.ts:30-57 | for every variant the result holds its merged entry (customer's line data if any, all guest units added and clamped once), dropped exactly when not positive |
| `CartMerge.MergeOrder` | apps/api/src/cart/cart-merge.util.ts:35-56 | customer variants in their order, then new guest variants by first appearance; one positive line each |
| `CartMerge.MergedUnits` | apps/api/src/cart/cart-merge.util.ts:46-56 | units per variant in closed form: the iterated clamp equals one clamp of the total |
| `CartMerge.MergedLineData` | apps/api/src/cart/cart-merge.util.ts:35-50 | each line of the result has the id and snapshot of the customer's line of that variant if he has one, of the guest's first otherwise, and the time of the merge |
| `CartMerge.ClampAgain` | apps/api/src/cart/cart-merge.util.ts:18-21 | clamping a running sum again is clamping the total |
| `CartMerge.IteratedClampIsOneClamp` | apps/api/src/cart/cart-merge.util.ts:18-50 | a variant ends at all units of both carts, but, if the guest cart has it, its stock is known and no backorder is allowed, at no more than that stock |
| `CartMerge.GuestOrderIsIrrelevant` | apps/api/src/cart/cart-merge.util.ts:43-50 | permuting the guest list changes no quantity |
| `CartMerge.MergeConserves` | apps/api/src/cart/cart-associate.service.ts:200 | called without a stock map, a merge neither creates nor loses units |
| `CartFlush.FlushIsExact` | apps/api/src/cart/cart-flush.repository.ts:38-67 | with one flusher and writes of any stamps, a cart is out of step with its row and not dirty iff its last SREM came after a write that differs from what the flusher had found, and no write followed |
| `CartFlush.RowIsLastFound` | apps/api/src/cart/cart-flush.repository.ts:38-54 | over every schedule the row of a cart is the state the flusher found at its last read whose upsert did not throw, whatever was written between, or the initial row |
| `CartFlush.FlagIsExact` | apps/api/src/cart/cart-flush.repository.ts:55-67 | over every schedule a write flags its cart, and nothing takes the flag away but an SREM that a recheck or an absent cart led to |
| `CartFlush.BlobIsLastWritten` | apps/api/src/cart/cart-flush.repository.ts:38-47 | the blob is the last one written, or what a read re-warmed from the row |
| `CartFlush.PassEnds` | apps/api/src/cart/cart-flush.repository.ts:32-82 | each step of the flusher, throwing or not, brings its pass nearer to its end, and neither writes nor another pass disturb that |
| `CartFlush.PassTakesUpDirty` | apps/api/src/cart/cart-flush.repository.ts:32-37 | a pass takes up exactly the carts dirty when it begins, each once |
| `CartFlush.LostOnlyInWindow` | apps/api/src/cart/cart-flush.repository.ts:49-67 | with a later millisecond on every write that is: iff a write landed between the decision to clear the flag and that SREM, and none followed |
| `CartFlush.WindowWriteLosesFlag` | apps/api/src/cart/cart-flush.repository.ts:55-67 | a write inside that window loses its flag iff it differs from what the flusher found |
| `CartFlush.LostUntilNextWrite` | apps/api/src/cart/cart-flush.repository.ts:32-82 | a lost cart stays lost, pass after pass, until it is written again |
| `CartFlush.SameMillisecondWriteIsLost` | apps/api/src/cart/cart-flush.repository.ts:49-60 | in every schedule, a different state stamped with the flushed millisecond before the recheck is lost although no write met the window |
| `CartFlush.CartFlushRepository.FlushDirty` | apps/api/src/cart/cart-flush.repository.ts:32-82 | an undisturbed pass whose upserts fail for a given set writes, counts and clears all other known dirty carts, drops stale flags, and leaves the failures dirty |
| `CartFlush.CartFlushRepository.FlushCart` | apps/api/src/cart/cart-flush.repository.ts:38-79 | one iteration: stale, failed or flushed, with the recheck before the SREM |
| `CartFlush.FlushPassDrains` | apps/api/src/cart/cart-flush.repository.ts:37-81 | the loop over the carts, in whatever order SMEMBERS lists them, has the closed-form effect and count |
| `CartFlush.QuietPass` | apps/api/src/cart/cart-flush.repository.ts:69-81 | with every dirty cart live, exactly the failures stay dirty and every clean cart agrees with its row |
| `CartFlush.SecondPassIsIdle` | apps/api/src/cart/cart-flush.repository.ts:34-35 | a retry drains the failures, and the pass after it counts nothing and changes nothing |
| `CartFlush.UndisturbedPass` | apps/api/src/cart/cart-flush.repository.ts:32-82 | the loop is the interleaved flusher on a schedule without writers |
| `DirtyTenants.GetDirtyTenantIds` | apps/api/src/cart/cart-flush.repository.ts:101-122 | the cursor loop returns, once each, exactly the tenants parsed from some key of some reply |
| `DirtyTenants.ParseInvertsPrinter` | apps/api/src/redis/keys.ts:21-23 | the five-segment parse inverts the key printer exactly for ids without a colon |
| `DirtyTenants.KeySpeltOut` | apps/api/src/redis/keys.ts:21-23 | the printed key, written out |
| `DirtyTenants.ParsesExactly` | apps/api/src/cart/cart-flush.repository.ts:113-118 | any string at all parses to a tenant iff it is five colon-separated pieces, the third the tenant and the last two `cart` and `dirty` |
| `DirtyTenants.ParsedKeyIsPrinted` | apps/api/src/cart/cart-flush.repository.ts:113-118 | a key under the MATCH pattern parses to a tenant only if it is that tenant's key |
| `DirtyTenants.DiscoveryIsComplete` | apps/api/src/cart/cart-flush.repository.ts:94-122 | every tenant whose key exists throughout is found iff its id has no colon |
| `CartWatchPool.PoolIsSound` | apps/api/src/cart/cart-watch-pool.ts:64-128 | over every interleaving no connection is in two places, idle ones have no WATCH outstanding, and the counters equal the populations they stand for (until destroy) |
| `CartWatchPool.ClampsNeverAct` | apps/api/src/cart/cart-watch-pool.ts:110-122 | neither `Math.max(0, ...)` ever changes a value |
| `CartWatchPool.DestroyedForGood` | apps/api/src/cart/cart-watch-pool.ts:110-134 | over every schedule after a destroy, each connection then idle is being quit or has been, any connection released is quit, and only one whose UNWATCH was under way at the destroy can be idle again |
| `CartWatchPool.PoolBound` | apps/api/src/cart/cart-watch-pool.ts:73-101 | with at most k connects pending at once, the counters stay within 63 + k in all (pending connects included) and 15 + k for pooled ones |
| `CartWatchPool.OpenBound` | apps/api/src/cart/cart-watch-pool.ts:37-41 | with, besides, at most q QUITs outstanding at once, the open and opening connections stay within 63 + k + q |
| `CartWatchPool.BoundsAreAttained` | apps/api/src/cart/cart-watch-pool.ts:73-116 | for every k and q all three bounds are reached by interleavings that keep to them |
| `CartWatchPool.CountersHoldExactlyWithoutOverlap` | apps/api/src/cart/cart-watch-pool.ts:73-101 | the counters keep the ceilings of 64 and 16 over all interleavings of overlap k iff k is at most 1 |
| `CartWatchPool.CeilingHoldsExactly` | apps/api/src/cart/cart-watch-pool.ts:37-41 | the open connections keep the documented ceiling of 64 over all interleavings of overlap k and q outstanding QUITs iff nothing ever connects or k + q is at most 1 |
| `CartWatchPool.CartWatchPool.AcquireRound` | apps/api/src/cart/cart-watch-pool.ts:66-82 | one round of the acquire loop is a step of the interleaved pool and keeps its invariant: the connection released last is reused, was nobody's and is unwatched; waiting means the ceiling is reached; a new one is pending under a fresh number, transient iff 16 are pooled |
| `CartWatchPool.CartWatchPool.AfterConnect` | apps/api/src/cart/cart-watch-pool.ts:96-101 | the connection enters exactly one counter, and exactly one holder has it |
| `CartWatchPool.CartWatchPool.Release` | apps/api/src/cart/cart-watch-pool.ts:110-116 | a holder's connection leaves him without becoming idle, and `transientInFlight` falls by exactly one for a transient one, so the clamp changes nothing |
| `CartWatchPool.CartWatchPool.AfterUnwatch` | apps/api/src/cart/cart-watch-pool.ts:116-127 | the connection joins the end of the idle ones iff its UNWATCH succeeded, watches nothing, and `owned` falls by exactly one on failure, so the clamp changes nothing |
| `CartWatchPool.CartWatchPool.OnModuleDestroy` | apps/api/src/cart/cart-watch-pool.ts:130-134 | the flag is set and both counters stay; the connections handed back to be quit are all that were idle, distinct, held by nobody and unwatched |
| `CategoryTree.BuildTree` | apps/admin/src/routes/categories.tsx:22-37 | for distinct ids, a node is among another's children iff its parent field names that category, and among the roots iff its parent is absent, empty or unknown; children stand in input order and roots by position; a walk from the roots meets each category once, except those on or below a parent cycle, which it never meets |
| `CategoryTree.LinkOne` | apps/admin/src/routes/categories.tsx:28-35 | one iteration adds exactly one link, under the known parent or among the roots |
| `CategoryTree.LinkedFollowsFields` | apps/admin/src/routes/categories.tsx:28-35 | parent and child objects are linked exactly as the parent fields say |
| `CategoryTree.LinkedInOrder` | apps/admin/src/routes/categories.tsx:28-36 | children stand in input order, roots by position and then in input order |
| `CategoryTree.MakeNodes` | apps/admin/src/routes/categories.tsx:23-27 | one fresh childless node per id, holding the last entry of that id |
| `CategoryTree.ForestIsExact` | apps/admin/src/routes/categories.tsx:28-37 | the flattened forest shows a category once if its parent chain ends and not at all if it is a member or descendant of a parent cycle |
| `CategoryTree.RootedExactly` | apps/admin/src/routes/categories.tsx:30-34 | a parent chain ends, within as many steps as there are categories, iff it meets no cycle |
| `CategoryTree.AcyclicForestIsPermutation` | apps/admin/src/routes/categories.tsx:22-37 | without parent cycles the flattened forest is a permutation of the input |
| `CategoryTree.BuiltForestIsExact` | apps/admin/src/routes/categories.tsx:22-37 | the linked objects are that forest |
| `CategoryTree.SortIsStable` | apps/admin/src/routes/categories.tsx:36 | roots come out by position, equal positions in input order |
| `AuditCsv.CsvRoundTrip` | apps/api/src/audit/audit-query.service.ts:58-88 | a parser for section 2 of RFC 4180 reads the export back as the nine named headers and one record per row, in which the field under each header is the neutralised value of the field of that name, none led by a formula trigger |
| `AuditCsv.CsvParses` | apps/api/src/audit/audit-query.service.ts:145-147 | the parser accepts every export and returns its records in order |
| `AuditCsv.FieldRoundTrip` | apps/api/src/audit/audit-query.service.ts:58-73 | each printed field parses back to its neutralised text, whatever follows |
| `AuditCsv.QuotedExactly` | apps/api/src/audit/audit-query.service.ts:68-72 | a field is quoted iff it holds a quote, a comma or a line break |
| `AuditCsv.NoFinalBreak` | apps/api/src/audit/audit-query.service.ts:147 | line breaks separate the records: none follows the last |
| `AuditCsv.CollisionsExactly` | apps/api/src/audit/audit-query.service.ts:62-66 | two texts print alike iff equal or one is the other, trigger-led, behind a quote |
| `AuditCsv.ExportIsComplete` | apps/api/src/audit/audit-query.service.ts:109-150 | an export succeeds iff the window is at most 31 days and the row cap is not met, and then parses as the header and every row, in order |
| `ThemeTemplate.DepthCheckIsExact` | packages/theme-sdk/src/template.ts:150-172 | the recursion accepts a template iff no section at depth 2 or deeper declares regions, even an empty map |
| `ThemeTemplate.BoundsAreExact` | packages/theme-sdk/src/template.ts:72-104 | the schema accepts a template iff it has at most 64 sections and each section, at whatever depth, is within the bounds by itself |
| `ThemeTemplate.AcceptedSizeBound` | packages/theme-sdk/src/template.ts:72-104 | the schema bounds and the depth check allow at most 64 * (1 + 512 + 512 * 512) sections |
| `ThemeTemplate.SizeBoundIsAttained` | packages/theme-sdk/src/template.ts:19-31 | the two checks alone admit a template of exactly that size, its regions distinctly named |
| `ThemeTemplate.ParsedSizeBound` | packages/theme-sdk/src/template.ts:127-133 | a template whose compact text passes the byte cap holds at most 4,993 sections |
| `ThemeTemplate.ParsedSizeIsAttained` | packages/theme-sdk/src/template.ts:127-133 | a template of exactly 4,993 sections passes the byte cap, the schema bounds and the depth check |
| `TableNamespace.NamespacesAreDisjoint` | packages/module-sdk/src/manifest.ts:112-128 | no table name is accepted for two modules |
| `TableNamespace.AcceptedSpeltOut` | packages/module-sdk/src/manifest.ts:112-128 | a manifest accepts exactly the tables `mod_<name>_<suffix>` with both parts well formed and within both lengths |
| `TableNamespace.NamesSpeltOut` | packages/module-sdk/src/manifest.ts:56-60 | module names and suffixes, character by character |
| `TableNamespace.HelperMeetsManifest` | packages/module-sdk/src/tables.ts:10-44 | a name the helper returns passes the manifest check of its module iff module name and table name are within 64 and 128 characters |
| `TableNamespace.HelperMakesAccepted` | packages/module-sdk/src/tables.ts:26-44 | the helper makes an accepted table iff its suffix does not start with `mod_` |
| `TableNamespace.HelperExceedsManifest` | packages/module-sdk/src/tables.ts:12-14 | the helper returns names that fail the check, for either length |
| `TableNamespace.GrammarsAreTheRegexes` | packages/module-sdk/src/manifest.ts:56-60 | the name and suffix tests are the two regular expressions |
| `TemplatePath.PathGrammar` | packages/theme-sdk/src/manifest.ts:56 | the expression accepts exactly the slash-joined non-empty lists of slug segments followed by `.json` |
| `TemplatePath.SegmentSpeltOut` | packages/theme-sdk/src/manifest.ts:56 | a segment, character by character |
| `TemplatePath.SegmentsRoundTrip` | packages/theme-sdk/src/manifest.ts:49-56 | splitting an accepted path and stripping the suffix gives its segments back |
| `TemplatePath.AcceptedPathStaysBelowRoot` | packages/theme-sdk/src/manifest.ts:50-54 | resolving an accepted path only descends from the root |
| `Strings.SplitJoin` | apps/api/src/cart/cart-flush.repository.ts:115 | splitting undoes joining for parts without the separator |
| `Strings.JoinSplit` | apps/api/src/cart/cart-flush.repository.ts:115 | joining undoes splitting for every string |
| `Strings.SplitCount` | apps/api/src/cart/cart-flush.repository.ts:116 | a string splits into one part iff it lacks the separator |

## Left out

- `CartService.abandon` and the cleanup of expired carts beside the association. Orders and the flush of one flusher are modelled in the `CartAssociationOutside` modules only: the theorems of the other association modules are about runs without them. Of an order, its address, shipping, stock and payment requirements are left out.
- A store operation that takes effect although its `await` throws: in the model a step that throws has written nothing.
- WATCH aborts and retries, and the inventory reservations they may leave behind; `reserve` is its clamped result against an arbitrary stock.
- Totals, discounts, taxes, shipping, expiry dates, and the checks of `addItem`, `updateItem` and `removeItem` after authorisation (one flag says whether they passed).
- Redis expiry and the re-warming of an evicted cart inside the association and between the reads of one `findById`; corrupt JSON.
- Two flushers at once, which the un-awaited timer of `apps/api/src/cart/cart-flush.service.ts:38` allows; the flush theorems assume one.
- What `upsertToPostgres` drops (lines of deleted variants, an erased customer): an upsert writes the state it was given. Inside the association only the status and owner it writes are modelled.
- The acquire deadline of the pool, and a destroy that races a pending UNWATCH: accounting of `owned` is an inequality after destroy.
- JSON, Zod internals, settings of sections, the byte cap of manifests, and the semver gate of the manifests; slug grammars of section and region names.
- Controllers, wiring, pages, HTTP clients, audit queries.
- CategoryTree.ForestIsExact: assumes distinct category ids, which the database guarantees; `BuildTree` itself is specified for all inputs.
- CartMerge.MergeByVariant: assumes non-negative guest quantities, which every cart line has.
- CartAssociateService.Service.FindById: reads Redis only; the Postgres fallback and its re-warming are `CartFlush.CartFlushRepository.FindById`.
