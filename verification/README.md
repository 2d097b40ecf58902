# Verification of the retail hub's core

A Dafny 4.11 model of the parts of the ApexEdge store hub where arithmetic, replay or
interleaving has to come out exactly right, with proofs about every input, run or reachable
state. `dafny verify dfyconfig.toml` checks the whole project. Each module follows one part of
the hub:

| files | part of the hub |
|---|---|
| `Pricing`, `Splitting`, `Promotions`, `Bundles`, `PromoLaws`, `PromoMeaning` | tax arithmetic and the promotion engine: which units are eligible, how much is taken off, how it is spread |
| `Carts`, `Pipeline`, `PipelineLaws`, `CartRuns`, `CartLaws`, `CouponLaws` | the cart, the pricing pipeline and whole runs of cart commands |
| `Fiscal`, `FiscalLaws`, `FiscalCases` | the signed transaction that derives the same money a second time |
| `CommandLocks` | at-most-once execution of commands |
| `Stream`, `StreamSession`, `StreamLaws` | the event ring, and a reconnecting client interleaved with a publisher |
| `Audit` | the hash-chained audit log |
| `Deliveries`, `Dispatcher`, `OutboxLaws`, `Blocking` | the outbox: one delivery's retries, the whole queue, and what holds it up |
| `RateLimit` | the sliding-window limiter |
| `Chars`, `WordWrap`, `PdfText`, `PdfPage` | the text layer of the generated PDF |
| `Seqs`, `Division` | shared sequences and integer division |

Code that updates state is modelled by classes, arrays and loops whose `ensures` tie them to a
specification function; the laws are then proved of that function. Code made of expressions is
modelled by functions. What the specification functions mean is proved apart from them, in the
terms of the basket, the cart, the log or the page alone: `PromoMeaning`, `CartLaws`,
`StreamLaws`, `OutboxLaws`, `PdfPage` and the last part of `Audit`.

## How to read it

- **Money.** `Pipeline.RunPricingPipeline` changes a cart in place into `PricedCart`. The main
  results are that pricing twice is pricing once (`PipelineLaws.PipelineIsIdempotent`), that the
  totals add up with an exact account of the cents a promotion split may take beyond a line
  (`PipelineLaws.PipelineTotals`), that a bundle gives away the cheapest units, and how many
  (`PromoMeaning.BundleGivesAwayCheapest`), that the order of lines and of promotions is forgotten
  (`PromoLaws`), and, for every run of cart commands, tenders after payment included, how the
  fiscal gross and the fiscal tenders compare with the order (`FiscalLaws.SaleOfAnyRun`).
- **Concurrency.** `CommandLocks` and `StreamSession` are transition systems; a run is any
  sequence of enabled actions of any number of requests, or of publisher and client.
- **Findings.** Where the code falls short of what its comments or interfaces suggest, a lemma
  gives the case and another the exact condition:
  - a promotion can take a line below zero: 299 cents off three lines of 100 take 99, 99 and 101
    (`PromoLaws.LastLineOverDiscounted`). It does so exactly when the last capped line has
    eligible cents and costs less than the other lines' quotas leave of the discount
    (`PromoLaws.StaysWithinLines`; of the split alone, `Splitting.SplitStaysWithin`), by at most
    max(0, n - 2) cents (`Splitting.PromoSplit`, attained by `Splitting.SlackIsAttained`);
  - the fiscal tenders can fall short of the fiscal gross (`FiscalCases.TendersCanFallShort`),
    exceed a gross of zero (`FiscalCases.FreeCartKeepsItsTender`), or exceed a positive one when
    tenders are added to a cart already paid (`FiscalCases.OverpaidCartKeepsItsTenders`). For
    every taxed cart they add up exactly when the gross was tendered to the cent, or more than a
    positive gross was and one payment alone bears the excess, with the gross told from the cart
    (`FiscalLaws.TendersFitGross`, `FiscalLaws.FiscalGrossIs`); when no tender is added once the
    cart is paid, that a positive gross was tendered is enough
    (`FiscalLaws.SaleOfRunThatStopsWhenPaid`);
  - a cart's coupons can exceed its gross, so that the total cuts them off: after a manual
    discount (`CouponLaws.ManualDiscountCutsCoupon`) and after the last line is removed
    (`CouponLaws.EmptiedCartKeepsItsCoupon`). Exactly when, for every cart and command:
    `CouponLaws.FitsAfterStep`;
  - a client whose `since` came from a replay, ahead of the broadcast, can be sent an event it
    already has (`StreamSession.AheadCanSeeDuplicate`, exactly when:
    `StreamSession.ContiguousIffBroadcast`);
  - a command can succeed twice after its response could not be stored, as that write's result is
    ignored (`CommandLocks.LostWriteRepeats`), after a request is dropped before it stores
    (`CommandLocks.DroppedRequestRepeats`), and after the stored response could not be read, as a
    failed read counts as nothing stored (`CommandLocks.FailedReadRepeats`). After any such
    history with no request under way, the key stays safe exactly when it has not succeeded or
    has once and that is stored (`CommandLocks.StaysOnceIffSettled`);
  - the audit log's documentation says any edit or deletion is detected. Exactly which are:
    `Audit.EditVerifies`, `Audit.ReplacementVerifies`, `Audit.DeletionVerifies`,
    `Audit.InsertionVerifies`, all from `Audit.BeginningReplaced`. Undetected are dropping the
    newest rows (`Audit.TruncationVerifies`), any content in a row whose key id is changed to
    another (`Audit.OtherKeyIdHidesEdits`), changes between NULL and the empty string and of row
    ids (`Audit.MessageIsInjective`), and content moved across a separator inside a field other
    than the payload (`Audit.SeparatorInsideFieldCollides`). The documented formula also omits
    the key id that the code appends;
  - submissions that cannot settle can block the outbox for every later one: those that no
    enabled destination wants, and those still owed to a destination that is not enabled. Both
    backlogs arise (`Blocking.UnwantedBacklogBlocks`, `Blocking.DisabledBacklogBlocks`) and block
    for good (`Blocking.StuckBatchBlocksTheQueue`); a wanted submission can come to be owed
    exactly when fewer than a batch of either kind stand before it (`Blocking.OwedIffNotBlocked`);
  - a carriage return inside a shown string would read back as a line feed
    (`PdfText.LiteralRoundTrip`); wrapping removes every one (`PdfText.WrappedHasNoCr`);
  - the PDF has one page and every line is put on it: a text that wraps to more than 57 lines runs
    off its lower edge (`PdfPage.OnePageHolds57Lines`).

## Model

| member | source | states |
|---|---|---|
| Pricing.ApplyTax | crates/domain/src/pricing.rs:82-88 | tax contained in a price never exceeds the price, so the subtraction cannot underflow |
| Pricing.TaxForLine | crates/domain/src/pricing.rs:121-129 | contained tax of a line never exceeds the line's amount, whatever rule applies |
| Pricing.TaxedByFirstRule | crates/domain/src/pricing.rs:121-129 | a line's tax is the rate of the first rule of its category on its amount, with that rule's inclusiveness; without such a rule it is zero and exclusive |
| Pricing.ExclusiveTaxIsFloor | crates/domain/src/pricing.rs:82-88 | exclusive tax is the floor of amount * rate / 10000 |
| Pricing.InclusiveTaxIsCeiling | crates/domain/src/pricing.rs:82-88 | inclusive tax is the ceiling of amount * rate / (10000 + rate) |
| Pricing.ExtractAfterAdding | crates/domain/src/pricing.rs:82-88 | extracting inclusive tax from net + exclusive tax gives the exclusive tax back, plus one cent exactly when it had been rounded |
| Pricing.TaxOfTwo | crates/domain/src/pricing.rs:82-88 | splitting an amount in two moves the tax by at most a cent, and in which direction |
| Pricing.SplittingMovesTax | crates/domain/src/pricing.rs:82-88 | splitting an amount over k lines moves the total tax by at most k - 1 cents |
| Splitting.QuotasFit | crates/domain/src/promo_engine.rs:382-384 | no line's quota exceeds its own cents when at most the total is spread |
| Splitting.RestBounds | crates/domain/src/promo_engine.rs:369-389 | what rounding leaves for the last of n lines exceeds its cents by at most max(0, n - 2) |
| Splitting.GuardsNeverBind | crates/domain/src/promo_engine.rs:377-386 | the minimum guards on lines before the last never change a share; the last line takes the rest unless it has no cents |
| Splitting.PromoSplit | crates/domain/src/promo_engine.rs:343-390 | the promotion split: each line but the last gets its floor quota; the shares are exactly the discount if the last line has cents, with the last at most max(0, n - 2) over its cents; otherwise at most that slack is lost |
| Splitting.SplitStaysWithin | crates/domain/src/promo_engine.rs:369-389 | every share stays within its line if and only if the last line has no cents, or rounding takes from the others no more than is not spread at all |
| Splitting.SlackIsAttained | crates/domain/src/promo_engine.rs:343-390 | the bound on the last share is tight for every n >= 2 and every line amount |
| Splitting.CappedSplit | crates/api/src/pos_handler.rs:797-817 | the split of manual discounts and coupons never takes more than a line costs, takes everything when the amount covers the lines, and otherwise leaves at most the slack |
| Splitting.CappedSharesAre | crates/api/src/pos_handler.rs:797-817 | share by share: each line but the last gets its part of the amount rounded down, never more than is left or than it costs, and the last what is left up to what it costs |
| Promotions.ApplicableLinesWithCap | crates/domain/src/promo_engine.rs:189-216 | the loop hands out exactly the capped units, in line-id order, skipping free lines and stopping when the cap is used up |
| Promotions.CappedAreDistinct | crates/domain/src/promo_engine.rs:189-216 | the capped lines are distinct priced lines of the basket, with no more eligible units than the line has |
| Promotions.GiveAwayCheapest | crates/domain/src/promo_engine.rs:248-289 | the buy-x-get-y arm computes the price of the first free units in price order |
| Promotions.TakeFirst | crates/domain/src/promo_engine.rs:281-289 | the loop over sorted units adds up the first free units |
| Promotions.ComputePromoDiscount | crates/domain/src/promo_engine.rs:218-315 | all four promotion types compute the specified discount |
| Promotions.SpreadOver | crates/domain/src/promo_engine.rs:369-389 | the in-place loop over both maps is the promotion split of the eligible cents taken before it began |
| Promotions.AllocateDiscountToLines | crates/domain/src/promo_engine.rs:343-390 | allocation spreads the discount over the same capped lines the discount was computed on |
| Promotions.ApplyPromosWithAttribution | crates/domain/src/promo_engine.rs:21-88 | promotions run in stable priority order on the totals left by those before them; exactly the ids with a non-zero discount are reported |
| Bundles.GreedyMeetsBound | crates/domain/src/promo_engine.rs:280-289 | the greedy walk over sorted units meets the lower bound that any choice of free units obeys |
| Bundles.GreedyIsCheapest | crates/domain/src/promo_engine.rs:280-289 | no way of choosing the free units is cheaper, and one is exactly as cheap, whatever the order of the units |
| Bundles.FreeUnitsFit | crates/domain/src/promo_engine.rs:272-279 | the free units always fit among the eligible ones |
| Bundles.EligibleUnitsWithinCap | crates/domain/src/promo_engine.rs:201-214 | the eligible units never exceed the promotion's cap, so their 32-bit sum cannot overflow |
| Bundles.CheapestOfEligible | crates/domain/src/promo_engine.rs:248-291 | a buy-x-get-y discount is the minimum total unit price over all choices of its free units, and the final cap never binds |
| PromoMeaning.RunsWhen | crates/domain/src/promo_engine.rs:39-50 | a promotion runs exactly inside its validity, both ends included, with every condition met by the basket's subtotal or by the units it holds of an item or a category |
| PromoMeaning.CapIs | crates/domain/src/promo_engine.rs:134-186 | the unit cap: none if no action names anything; else the first such action's maximum, or what its condition asks for, once per group of units that meets the condition, and at least once |
| PromoMeaning.CappedLinesGrant | crates/domain/src/promo_engine.rs:189-216 | the capped lines are those of the basket that an action names and that still cost something, by ascending id, each with as many of its units as the cap leaves; one is missing only once the cap is used up, and together they hold min(cap, covered units) |
| PromoMeaning.CentsAndUnits | crates/domain/src/promo_engine.rs:230-240 | every list of capped lines has eligible cents and units at a rounded-down unit price, as the discount laws take them |
| PromoMeaning.DiscountIs | crates/domain/src/promo_engine.rs:244-315 | a percentage of the eligible cents rounded down; a fixed amount, at most those cents; or, for a price override, what each eligible unit costs above that price |
| PromoMeaning.BundleGivesAwayCheapest | crates/domain/src/promo_engine.rs:248-291 | `get` units are free per whole bundle of buy + get among the covered units, up to the cap, counted from the basket; the discount is the least total unit price over all ways to choose that many |
| PromoMeaning.PromoIsShared | crates/domain/src/promo_engine.rs:343-390 | a promotion that runs moves each capped line's part of the discount, by its eligible cents, from its total to its discount; the last line gets what is left; other lines stay; it is reported exactly when it took something off |
| PromoMeaning.HigherPriorityRunsFirst | crates/domain/src/promo_engine.rs:21-71 | the promotions run by falling priority, equal ones as listed, each on what the earlier ones left, from full line totals and no discounts |
| PromoLaws.LineOrderIsForgotten | crates/domain/src/promo_engine.rs:21-88 | discounts by line id and applied promotions do not depend on the order of the lines |
| PromoLaws.PromotionOrderIsForgotten | crates/domain/src/promo_engine.rs:35-38 | nor on the order in which promotions of distinct priorities are listed |
| PromoLaws.IdlePromoIsIdentity | crates/domain/src/promo_engine.rs:59-70 | a promotion that is not reported as applied leaves both maps as they were |
| PromoLaws.DropIdlePromos | crates/domain/src/promo_engine.rs:38-71 | dropping any promotions that took nothing off changes no discount and no applied id |
| PromoLaws.ShareFits | crates/domain/src/promo_engine.rs:370-389 | a split takes from a line at most its remaining total, plus the slack on the last line |
| PromoLaws.PromotionsExcess | crates/domain/src/promo_engine.rs:21-88 | over all promotions, discounts exceed line totals by at most max(0, n - 2) cents per applied promotion |
| PromoLaws.SharesGrow | crates/domain/src/promo_engine.rs:386-388 | what a split gives out is what the line discounts grow by in total |
| PromoLaws.PromoTakesOffItsDiscount | crates/domain/src/promo_engine.rs:51-70 | a promotion takes its whole discount off the lines to the cent, unless the last capped line has no eligible cents, and then loses at most the slack |
| PromoLaws.StaysWithinLines | crates/domain/src/promo_engine.rs:369-389 | a promotion takes no line below zero if and only if its last capped line has no eligible cents, or still costs what the quotas of the others leave of the discount |
| PromoLaws.LastLineOverDiscounted | crates/domain/src/promo_engine.rs:21-88 | the whole engine run on a basket of three lines of 100 cents with 299 cents off takes 99, 99 and 101 cents, and reports the promotion |
| Carts.Cart.AddLineItem | crates/domain/src/cart.rs:122-144 | appends an undiscounted, untaxed line and itemizes the cart |
| Carts.Cart.RemoveLineItem | crates/domain/src/cart.rs:229-244 | refuses an uneditable cart or a missing line without a change, otherwise removes exactly that line |
| Carts.Cart.ApplyPricing | crates/domain/src/cart.rs:209-225 | overwrites the prices of each result's line, ignores results without a line, recomputes the state |
| Carts.Cart.AddPayment | crates/domain/src/cart.rs:256-278 | accepts a tender while tendering or paid, and marks the cart paid once tenders reach the total |
| Carts.Cart.EnsureCanFinalize | crates/domain/src/cart.rs:168-180 | which of the two errors, or success |
| Carts.Cart.ToOrder | crates/domain/src/cart.rs:365-400 | an order comes exactly from a paid cart whose tenders reach its total |
| Carts.GrossFromSubtotal | crates/domain/src/cart.rs:182-198 | gross line by line equals subtotal less discounts plus exclusive tax plus the cents discounted beyond a line's total |
| Carts.NetWithinGross | crates/domain/src/cart.rs:65-72 | gross is net plus exclusive tax |
| Carts.SetPricesPointwise | crates/domain/src/cart.rs:209-218 | with distinct ids, applying results one by one gives each line its own result |
| Pipeline.ApplyTaxToPricingResults | crates/api/src/pos_handler.rs:625-652 | succeeds exactly when every result has a line, and then taxes each result by the net of its own amounts and its line's item |
| Pipeline.TakeOffCart | crates/api/src/pos_handler.rs:797-817 | the in-place loop is the capped split of the prices the lines had before it |
| Pipeline.ApplyManualDiscountsToLines | crates/api/src/pos_handler.rs:774-828 | stored manual discounts are applied one after the other, then every line is taxed anew; without any nothing happens |
| Pipeline.ApplyCouponDiscounts | crates/api/src/pos_handler.rs:742-771 | each coupon is priced on what the coupons before it have left |
| Pipeline.PromoResults | crates/api/src/pos_handler.rs:683-714 | automatic promotions, then requested ones, give one taxed result per line |
| Pipeline.RunPricingPipeline | crates/api/src/pos_handler.rs:655-729 | the pipeline never hits its internal error and leaves the specified cart, state included |
| PipelineLaws.PipelineKeepsGoods | crates/api/src/pos_handler.rs:655-729 | pricing changes nothing of a line but discount and tax |
| PipelineLaws.SecondRunPromos | crates/api/src/pos_handler.rs:687-703 | the promotions of a second run are those of the first without the requested ones that took nothing off |
| PipelineLaws.SecondRunOutcome | crates/api/src/pos_handler.rs:687-716 | a second run applies the same discounts and reports the same ids |
| PipelineLaws.PipelineIsIdempotent | crates/api/src/pos_handler.rs:655-729 | running the pipeline twice gives the same lines, promotions, coupons and state as once |
| PipelineLaws.PipelineTaxes | crates/api/src/pos_handler.rs:820-826 | each line's tax is that of the first rule of its item's catalog category (the nil category if the catalog has none) on the line's final price |
| PipelineLaws.PipelineOver | crates/api/src/pos_handler.rs:655-729 | line discounts exceed line totals by at most max(0, n - 2) cents per applied promotion; manual discounts add nothing to that |
| PipelineLaws.PipelineTotals | crates/domain/src/cart.rs:182-198 | total + coupons = gross of the lines, so the saturating subtraction never truncates; and total + all discounts = subtotal + exclusive tax + that excess |
| CartRuns.Apply | crates/api/src/pos_handler.rs:926-2975 | each editing command makes its own change to the cart or refuses and changes nothing |
| CartRuns.Perform | crates/api/src/pos_handler.rs:926-2975 | an accepted edit is followed by the pipeline, except an emptied cart and a manual discount, which is applied on top of current prices |
| CartRuns.Handle | crates/api/src/pos_handler.rs:830-2975 | every command modelled, on every cart, is the specified step, with the guards of its state; a refused command changes nothing |
| CartRuns.StepInv | crates/domain/src/cart.rs:122-180 | every command keeps: distinct lines, line total = unit price * quantity, contained tax within the price, no tenders before tendering, tendering means unpaid once a tender exists, paid means paid |
| CartRuns.RunInv | crates/domain/src/cart.rs:146-278 | hence every run does |
| CartRuns.ReachableInv | crates/domain/src/cart.rs:98-114 | and every cart reachable from a new one satisfies it |
| CartRuns.TotalIsFixedFromTendering | crates/domain/src/cart.rs:146-157 | from tendering on no command but a void changes lines, coupons or total; tenders are only added; a finalized cart is never changed |
| CartRuns.PaidByLastRun | crates/domain/src/cart.rs:256-278 | if no tender is added once paid, all tenders before the last fell short of the total |
| CartLaws.AddedLineIs | crates/domain/src/cart.rs:122-144 | after an accepted AddLine exactly one line has the new id, with the item, quantity and unit price asked for, at quantity * price; the others stay |
| CartLaws.UpdatedLineIs | crates/api/src/pos_handler.rs:1144-1335 | after an accepted UpdateLine exactly one line has the id, with the new quantity at quantity * its unit price; the others stay |
| CartLaws.RemovedLineIs | crates/api/src/pos_handler.rs:2897-2975 | the removed line is gone, the others stay in order |
| CartLaws.MissingLinesAreRefused | crates/api/src/pos_handler.rs:1144-1335 | edits of a missing line, and updates to a quantity of zero, change nothing |
| CartLaws.RefusedIn | crates/domain/src/cart.rs:146-180 | what each cart state refuses |
| CartLaws.AcceptedIn | crates/domain/src/cart.rs:246-278 | in every reachable cart, what tendering, a tender, finalizing and voiding do; a tender pays the cart exactly when all tenders reach the total |
| CartLaws.AppliedPromos | crates/api/src/pos_handler.rs:687-703 | a promotion is applied exactly when it is automatic, or asked for by an id no automatic one has; automatic ones come first |
| CartLaws.PromotionsSeeTheCart | crates/api/src/pos_handler.rs:683-716 | promotions are given the cart's own ids, items, quantities and line totals and their sum; a priced line's discount is theirs unless manual discounts follow |
| CartLaws.PricedState | crates/api/src/pos_handler.rs:709-729 | pricing leaves the cart discounted exactly if it has a manual discount, a discounted line or a coupon worth something, else itemized, or open without lines |
| CartLaws.PromoIsAskedFor | crates/api/src/pos_handler.rs:1570-1644 | a promotion of the catalog that is asked for joins those the cart is priced with, once; an unknown one changes nothing |
| CartLaws.RemovedPromoStaysOff | crates/api/src/pos_handler.rs:1645-1713 | a removed promotion with a code is not applied again |
| CartLaws.ManualAmountIs | crates/api/src/pos_handler.rs:1755-1830 | a manual discount is a percentage of the subtotal, or of what the item still costs, rounded down, or a fixed amount, and never more than its base |
| CartLaws.NoAmountWithoutItem | crates/api/src/pos_handler.rs:1761-1830 | an item discount on a missing line changes nothing |
| CartLaws.ManualDiscountIs | crates/api/src/pos_handler.rs:774-828 | a stored discount on a line discounts that line alone; one on the cart makes it free if it covers it, and otherwise takes all but the slack off |
| CartLaws.CartDiscountIsSplit | crates/api/src/pos_handler.rs:797-817 | a discount on the cart is split over the lines by what each still costs, share by share |
| CartLaws.ManualStepIs | crates/api/src/pos_handler.rs:1845-1892 | the command stores the discount and takes all stored ones off the current lines in turn; nothing else but the taxes changes |
| CartLaws.CouponIsAdded | crates/api/src/pos_handler.rs:1336-1499 | a coupon is added unless the code asked for, in either case, is there; pricing keeps all codes |
| CartLaws.CouponIsRemoved | crates/api/src/pos_handler.rs:1500-1569 | exactly the coupons with the removed id go |
| CartLaws.PricedCartCoupons | crates/api/src/pos_handler.rs:731-771 | a coupon is worth nothing without a live promotion of its code; else its percentage rounded down, or its amount, of what the net less the earlier coupons leaves |
| CartLaws.OrderAddsUp | crates/domain/src/cart.rs:364-400 | in every reachable cart whose coupons fit: units * prices, less all discounts, plus exclusive tax, plus the cents discounted beyond a line, is the order's total |
| CouponLaws.PricingFits | crates/domain/src/cart.rs:184-188 | after the pipeline the total takes off all coupons of any cart |
| CouponLaws.FitsAfterStep | crates/api/src/pos_handler.rs:830-2975 | for every cart and command, exactly when the total takes off all coupons afterwards, told from the cart before: always after repricing; after a manual discount only if they are within what it leaves of the gross; after the last line is removed only if they are worth nothing |
| CouponLaws.PlainRunsFit | crates/domain/src/cart.rs:184-188 | in every run without manual discounts and line removals the total takes off all coupons |
| CouponLaws.EmptiedCartKeepsItsCoupon | crates/api/src/pos_handler.rs:2897-2975 | a run that couponed a line and removes it ends with a coupon beyond a gross of zero |
| CouponLaws.ManualDiscountCutsCoupon | crates/api/src/pos_handler.rs:1853-1892 | a run with a coupon followed by a manual discount ends with the coupon beyond the gross |
| Fiscal.AllocateBasketDiscount | crates/api/src/fiscal.rs:439-461 | the in-place loop takes the specified signed shares off net and gross, with truncating division and all guards |
| Fiscal.FitTendersToGross | crates/api/src/fiscal.rs:465-476 | takes the excess off the last tender that can bear it, if any |
| Fiscal.SaleTransaction | crates/api/src/fiscal.rs:73-154 | builds the specified transaction from an order |
| FiscalLaws.FiscalSharesAreCapped | crates/api/src/fiscal.rs:447-459 | on lines of a priced cart the signed fiscal split is the split the pipeline uses |
| FiscalLaws.AllocatedSale | crates/api/src/fiscal.rs:439-461 | after allocation every net is non-negative, gross = net + tax on every line, and the totals lose exactly what was given out |
| FiscalLaws.SaleLinesAre | crates/api/src/fiscal.rs:82-118 | every signed line is the order's line less its share of the coupons, split share by share over the nets; the totals are those of the lines |
| FiscalLaws.FiscalGrossCoversTotal | crates/api/src/fiscal.rs:73-154 | the fiscal gross never falls below the order total; the gap is at most max(0, n - 2) cents while coupons fit the lines' net, and otherwise the coupons beyond it, at most the tax |
| FiscalLaws.FiscalGapOfPricedCart | crates/api/src/fiscal.rs:439-461 | with coupons within the lines' prices but beyond their net, the gap is exactly the difference |
| FiscalLaws.FittedSum | crates/api/src/fiscal.rs:465-476 | for any payments and gross: the fitted tenders sum to the gross if and only if they did before, or exceed a positive gross by no more than some payment |
| FiscalLaws.FittedLast | crates/api/src/fiscal.rs:465-476 | when all tenders but the last fall short of a total the gross reaches, the last can bear any excess and only it is changed |
| FiscalLaws.SaleTendersAre | crates/api/src/fiscal.rs:463-476 | every tender keeps its id, tip and amount, except that the last one able to bear the excess over a positive gross gives it back |
| FiscalLaws.FiscalGrossIs | crates/api/src/fiscal.rs:439-461 | the fiscal gross of any taxed cart, told from the cart before the call: the total plus the coupons beyond the net as far as there is tax, or plus what the other lines' quotas leave beyond the last line's net |
| FiscalLaws.TendersFitGross | crates/api/src/fiscal.rs:463-476 | for every taxed cart, whatever was tendered when: the fiscal tenders sum to the fiscal gross if and only if exactly that was tendered, or more than a positive gross and one payment bears the excess, told from the cart |
| FiscalLaws.TendersOfCartPaidByLast | crates/api/src/fiscal.rs:463-476 | when the last tender is the one that paid: if and only if a positive gross was tendered, or nothing was for a gross of zero; only the last tender can change |
| FiscalLaws.SaleOfAnyRun | crates/api/src/fiscal.rs:73-154 | for every run of commands from a new cart, tenders after payment included: order total <= gross, and the same exact condition on the tenders |
| FiscalLaws.SaleOfRunThatStopsWhenPaid | crates/api/src/fiscal.rs:463-476 | for every run that adds no tender once paid: the tenders sum to the gross if and only if a positive gross was tendered, or nothing was for a gross of zero |
| FiscalCases.TendersCanFallShort | crates/api/src/fiscal.rs:450-460 | a run of commands from a new cart, with a one-cent coupon, that ends paid with one cent tendered against a gross of two |
| FiscalCases.FreeCartKeepsItsTender | crates/api/src/fiscal.rs:470-475 | for every amount, a run that pays it on a cart costing nothing keeps it as the sale's tender against a gross of zero |
| FiscalCases.OverpaidCartKeepsItsTenders | crates/domain/src/cart.rs:256-278 | a run that tenders ten three times on a cart of ten ends paid with thirty tendered, and fiscal tenders that do not sum to the gross of ten |
| CommandLocks.ClaimKeepsLocks | crates/api/src/pos.rs:24-38 | a claim, pruning dead entries, keeps one lock object per key with any live reference |
| CommandLocks.ClaimLeavesOnlyLive | crates/api/src/pos.rs:27-36 | after a claim the table holds only keys with a live lock |
| CommandLocks.SameKeyExcludes | crates/api/src/pos.rs:23-38 | two requests with one key never own a lock at the same time |
| CommandLocks.RunKeepsLocks | crates/api/src/pos.rs:23-38 | lock safety in every interleaving, whether or not the response store works, and with requests cancelled |
| CommandLocks.StepKeepsOnce | crates/api/src/pos.rs:157-181 | every step that is reliable for a key, whatever happens to other keys, keeps: the key has succeeded at most once, and its success is stored or about to be |
| CommandLocks.StepKeepsReply | crates/api/src/pos.rs:157-181 | and keeps: the store holds the key's one success, and every request is answered with what is stored or with the outcome of its own execution |
| CommandLocks.AtMostOnce | crates/api/src/pos.rs:157-181 | in every interleaving, requests dropped at any point included, for every key none of whose responses is lost, at most one execution succeeds, and every reply, successful or not, is the response of that success or of an execution made for that very request |
| CommandLocks.ServeAlone | crates/api/src/pos.rs:157-183 | a request that is shown nothing stored executes its command and, if the write works, stores a success |
| CommandLocks.RetryIsAnsweredFromStore | crates/api/src/pos.rs:157-170 | once a response is stored, a request that runs alone is enabled to the end, executes nothing, and is answered with exactly that response |
| CommandLocks.FailureIsRetried | crates/api/src/pos.rs:171-172 | after a failed execution the next request with the key executes again |
| CommandLocks.LostWriteRepeats | crates/api/src/pos.rs:172-181 | after one lost response write the same key can succeed twice |
| CommandLocks.FailedReadRepeats | crates/api/src/pos.rs:158-170 | after one failed read of a stored response the same key can succeed twice |
| CommandLocks.DroppedRequestRepeats | crates/api/src/pos.rs:171-181 | after a request is dropped between executing and storing the same key can succeed twice |
| CommandLocks.StaysOnceIffSettled | crates/api/src/pos.rs:157-181 | after any run, lost responses included, with no request under way: every continuation that loses no response of the key keeps it at most once if and only if it has not succeeded, or has once and the success is stored |
| CommandLocks.LockTable.Claim | crates/api/src/pos.rs:24-38 | a table that represents a state, its strong counts being the numbers of requests that refer to each lock, represents the next one after the claim, and returns the lock that request waits for |
| CommandLocks.LockTable.Drop | crates/api/src/pos.rs:157-190 | dropping the claim of a request that replies or is dropped takes the table to one that represents the state after that step, so a lock is alive exactly while some request refers to it |
| CommandLocks.LockTable.OtherStepsRepresent | crates/api/src/pos.rs:157-190 | every other step leaves a table that represents the state representing the next one |
| Stream.RingKeepsLast | crates/api/src/stream.rs:148-154 | pushing to the ring keeps it the last 256 events of the log |
| Stream.FilterSuffix | crates/api/src/stream.rs:168-174 | filtering consecutively numbered events by number keeps exactly a suffix |
| Stream.RingAnswers | crates/api/src/stream.rs:162-180 | what the ring answers at any moment of a publish, in terms of the log alone |
| Stream.StoreChannel.Publish | crates/api/src/stream.rs:138-158 | publishing appends the next numbered event; ring and counter stand for the whole log |
| Stream.StoreChannel.ReplaySince | crates/api/src/stream.rs:162-180 | the replay is exactly the log after `since`, or a resnapshot exactly when since < published - 256 |
| StreamSession.PublisherKeepsHub | crates/api/src/stream.rs:138-158 | each of the three publish steps keeps ring, log and broadcast count in step |
| StreamSession.ReadHistoryKeepsSession | crates/api/src/stream.rs:162-180 | the ring read, after any publishes since the number was read, answers with a replay that joins up with the live messages |
| StreamSession.ReceiveKeepsSession | crates/api/src/stream.rs:401-413 | each live message is skipped or appended so that the client's events stay contiguous; lag ends the loop |
| StreamSession.StepKeepsSession | crates/api/src/stream.rs:350-423 | every step of publisher or handler keeps the session invariant |
| StreamSession.ReconnectIsContiguous | crates/api/src/stream.rs:359-415 | in every interleaving a client whose `since` was broadcast holds, at every moment, exactly the events after it in order, or a resnapshot marker and exactly the events after that |
| StreamSession.AheadCanSeeDuplicate | crates/api/src/stream.rs:162-168 | for every hub and every `since` beyond the broadcasts there is a run that sends an event numbered at or below `since` |
| StreamSession.ContiguousIffBroadcast | crates/api/src/stream.rs:359-415 | all runs after subscribing are contiguous if and only if `since` had been broadcast |
| StreamLaws.RingDecides | crates/api/src/stream.rs:162-180 | in every session, reading the ring leads to a resnapshot exactly when events were missed and nothing is recorded yet or more than 256 events after `since` are; otherwise to the replay of exactly the events recorded after `since` |
| StreamLaws.RecentClientIsReplayed | crates/api/src/stream.rs:162-180 | in every run in which the log never outgrows since + 256, and its first event had been recorded, the client is only ever sent the very events after `since` |
| StreamLaws.StaleClientIsTold | crates/api/src/stream.rs:174-178 | in every run of a client that misses more than the ring holds, the first thing it is sent is a resnapshot |
| StreamLaws.CatchesUp | crates/api/src/stream.rs:359-395 | with the hub at rest, some run brings every client to exactly the missed events, or to one resnapshot marker with the current number |
| StreamLaws.NextEventIsForwarded | crates/api/src/stream.rs:400-415 | a client that is up to date can be sent the next published event, with its number, kind and payload |
| Audit.MessageIsInjective | crates/storage/src/audit.rs:60-82 | with separator-free fields around the payload, two rows sign the same message if and only if they have the same content, NULL and empty being the same |
| Audit.SeparatorInsideFieldCollides | crates/storage/src/audit.rs:60-82 | for every row, a separator in the event type gives another row with the same message |
| Audit.AuditLog.ComputeHash | crates/storage/src/audit.rs:60-82 | feeding the MAC piece by piece hashes the joined message |
| Audit.AuditLog.Record | crates/storage/src/audit.rs:93-137 | appends a row linked to the last row and signed with the current key |
| Audit.AuditLog.RecordAll | crates/storage/src/audit.rs:43-137 | records under changing keys append the specified history |
| Audit.AuditLog.VerifyChain | crates/storage/src/audit.rs:150-229 | accepts exactly the logs without a faulty row, counting the chained ones; otherwise names the least faulty row, its fault and the rows counted before it |
| Audit.EqualTipsMeanEqualLogs | crates/storage/src/audit.rs:150-229 | two verified current-key chains with one tip hash are equal row by row, or the MAC collides on two of their rows |
| Audit.BeginningReplaced | crates/storage/src/audit.rs:150-229 | whatever replaces the beginning of a verified log, the result verifies if and only if the new beginning does and ends in the old link tip, or nothing chained follows |
| Audit.DeletionVerifies | crates/storage/src/audit.rs:150-229 | deleting rows of a verified log is unnoticed if and only if the tip before them equals the tip after them, or nothing chained follows |
| Audit.ReplacementVerifies | crates/storage/src/audit.rs:150-229 | replacing a row by any row is unnoticed if and only if the new one has no fault in its place and leaves the same tip, or nothing chained follows |
| Audit.EditVerifies | crates/storage/src/audit.rs:184-218 | editing a chained row with its two hashes kept is unnoticed if and only if it then claims another key, or its message has the stored hash |
| Audit.InsertionVerifies | crates/storage/src/audit.rs:150-229 | inserting a row is unnoticed if and only if it has no fault there and leaves the tip as it was, or nothing chained follows |
| Audit.OtherKeyIdHidesEdits | crates/storage/src/audit.rs:187-193 | in every verified log, any event type and payload may stand in a row with a hash once its key id is another |
| Audit.TruncationVerifies | crates/storage/src/audit.rs:150-229 | every prefix of a verified log verifies |
| Audit.RecordedHistoryVerifies | crates/storage/src/audit.rs:93-137 | legacy rows followed by records, under any rotation of keys, verify exactly when the current key still signs the rows of its id, with checked = number of records |
| Audit.HistoryHoldsItsRecords | crates/storage/src/audit.rs:93-137 | after any history of records each has its own row, in order, with the next id, its own event, entity, payload, time and key id, the last row's hash, and the MAC of those fields joined by the separator |
| Audit.FaultIs | crates/storage/src/audit.rs:162-226 | a row is at fault exactly when it is signed and does not name the hash of the last signed row before it, or claims the current key and its hash is not the MAC of its own fields; which of the two is reported |
| Deliveries.CountsDecide | crates/outbox/src/dispatcher.rs:432-463 | the row is decided by the counts of its tries: dead-lettered exactly when counted failures reach the budget (or there was no endpoint), however many unreachable tries lie between; the counters are those counts |
| Deliveries.SettledIsFinal | crates/storage/src/outbox_destinations.rs:289-308 | nothing is tried after a delivery was delivered or given up |
| Deliveries.BackoffGrows | crates/outbox/src/dispatcher.rs:85-87 | delays never shrink with the failure count and are constant at 64 times the base from the seventh on |
| Deliveries.BackoffDoubles | crates/outbox/src/dispatcher.rs:85-87 | the delay is 1, 2, 4, 8, 16, 32 or 64 times the base, by the number of earlier failures |
| Deliveries.NextTry | crates/outbox/src/dispatcher.rs:350-361 | a pending row waits for the delay of its own kind of failure |
| Deliveries.TriesAreSpaced | crates/outbox/src/dispatcher.rs:432-446 | no try comes before all delays scheduled up to it have passed |
| Deliveries.GivingUpTakesTheWholeBudget | crates/outbox/src/dispatcher.rs:432-463 | a delivery with an endpoint is given up after exactly the budget of counted failures, and not before all their delays have passed |
| Dispatcher.OwedMembers | crates/outbox/src/dispatcher.rs:240-263 | fan-out owes exactly the pairs of a batched submission and an enabled destination that wants its kind |
| Dispatcher.RowFollowsItsOwnTries | crates/outbox/src/dispatcher.rs:220-237 | in every run of the queue a row is what its own tries since it was queued make of it; no other destination's outcome touches it |
| Dispatcher.DeadLetteredAtTheBudget | crates/outbox/src/dispatcher.rs:432-463 | in every run of the queue, operator retries included, a delivery is dead-lettered exactly at its budget |
| Dispatcher.StepKeepsStatus | crates/storage/src/outbox_destinations.rs:541-580 | every operation keeps submission status and delivery rows in agreement |
| Dispatcher.RunKeepsStatus | crates/storage/src/outbox_destinations.rs:536-580 | every run keeps it |
| Dispatcher.ReachableAgrees | crates/storage/src/outbox_destinations.rs:536-580 | in every queue reached from the empty one a delivered submission was delivered to everyone it was owed to; a dead-lettered one is owed to nobody and was given up by somebody |
| OutboxLaws.AnswerDecides | crates/outbox/src/dispatcher.rs:266-372 | told from the answer: no address gives up at once; a success status delivers unless the body refuses and the destination speaks that contract; no connection is not counted; anything else, a missing secret included, is counted and retried or given up; with which delay |
| OutboxLaws.FanOutOwes | crates/outbox/src/dispatcher.rs:101-137 | fan-out inserts a fresh row for exactly the pairs of one of the oldest pending submissions and an enabled destination that lists its kind or nothing, and leaves existing rows alone |
| Blocking.OwedAreBefore | crates/storage/src/outbox_destinations.rs:236-257 | behind a full batch of stuck submissions, fan-out owes nothing of later ones |
| Blocking.HeldUpStays | crates/storage/src/outbox_destinations.rs:289-308 | a submission with a pending row of a destination that is not enabled stays pending with that row, as the row is never fetched |
| Blocking.StuckBatchBlocksTheQueue | crates/outbox/src/dispatcher.rs:240-263 | a full batch of submissions that nobody wants, or that a disabled destination is still owed, blocks in every run with this configuration, the later submission untouched |
| Blocking.UnwantedBacklogBlocks | crates/outbox/src/dispatcher.rs:240-263 | for every policy and configuration, a run from the empty queue that enqueues a batch nobody wants and then any submission reaches the blocked state |
| Blocking.DisabledBacklogBlocks | crates/storage/src/outbox_destinations.rs:205-232 | for every policy, a run from the empty queue that fans a batch out to a destination and then enqueues any submission reaches, once that destination is disabled, the blocked state, whoever else is enabled |
| Blocking.UnstuckInBatch | crates/storage/src/outbox_destinations.rs:236-257 | a full batch with fewer than that many stuck submissions before k holds one that is not stuck |
| Blocking.OldestDelivered | crates/storage/src/outbox_destinations.rs:289-312 | taking only rows a cycle would fetch, of enabled destinations and among the oldest due, everything owed to enabled destinations by the first n submissions can be delivered |
| Blocking.BatchedCanSettle | crates/outbox/src/dispatcher.rs:220-237 | so a batched submission that is not stuck can be owed, delivered and settled, no other submission changing status and no row being held up |
| Blocking.OpenCanBeOwed | crates/outbox/src/dispatcher.rs:220-237 | with fewer than a batch stuck before it, some run with the configuration owes a wanted submission to somebody |
| Blocking.OwedIffNotBlocked | crates/outbox/src/dispatcher.rs:240-263 | a wanted, pending, not yet owed submission can come to be owed under the configuration if and only if fewer than a full batch of stuck submissions stand before it |
| Dispatcher.Outbox.EnsureDelivery | crates/storage/src/outbox_destinations.rs:264-286 | inserting a row that exists is a no-op, and the result says which it was |
| Dispatcher.Outbox.OweTo | crates/outbox/src/dispatcher.rs:247-260 | one submission is owed to each destination that wants it; existing rows are kept |
| Dispatcher.Outbox.FanOutPending | crates/outbox/src/dispatcher.rs:240-263 | the nested loops are the fan-out step, and the result counts the new rows |
| Dispatcher.Outbox.GiveUp | crates/outbox/src/dispatcher.rs:448-463 | dead-letters the row and counts the attempt |
| Dispatcher.Outbox.RetryOrGiveUp | crates/outbox/src/dispatcher.rs:432-446 | a counted failure retries with its delay or gives up at the budget |
| Dispatcher.Outbox.AttemptDelivery | crates/outbox/src/dispatcher.rs:266-372 | an attempt is one step on its own row with the outcome it had, and is delivered exactly when accepted |
| Dispatcher.Outbox.DispatchDue | crates/outbox/src/dispatcher.rs:220-237 | the attempts of a cycle, made on counters fetched beforehand, are a run of the queue, and the result counts the accepted ones |
| Dispatcher.Outbox.RetryDeadLetter | crates/storage/src/outbox_destinations.rs:433-459 | re-queues exactly a dead-lettered delivery, and its submission with it |
| Dispatcher.Outbox.SettleFinished | crates/storage/src/outbox_destinations.rs:541-580 | each candidate is dead-lettered if any destination gave up, delivered otherwise; no other submission changes |
| RateLimit.RateLimiter.Allow | crates/api/src/rate_limit.rs:102-122 | a request is decided on its client's unexpired queue alone, other queues are untouched, and the map stays the one of the whole run |
| RateLimit.ExpiryKeepsRecent | crates/api/src/rate_limit.rs:111-116 | popping expired instants off the front leaves exactly the recent ones |
| RateLimit.WindowHoldsAtMostLimit | crates/api/src/rate_limit.rs:117-120 | spaced admissions put at most `limit` in any half-open window |
| RateLimit.OwnRequest | crates/api/src/rate_limit.rs:102-122 | one request keeps the admissions ordered and spaced and the queue equal to the recent ones |
| RateLimit.StoredAreTheRecentAdmissions | crates/api/src/rate_limit.rs:102-122 | in every run with a forward clock the stored queue is exactly the admissions of the last window |
| RateLimit.GrantsByTheMinute | crates/api/src/rate_limit.rs:71-122 | in every run with a forward clock a client is granted exactly the requests that find fewer than its bucket's own setting granted in the minute before |
| RateLimit.AtMostLimitPerWindow | crates/api/src/rate_limit.rs:102-122 | every half-open 60 s window holds at most `limit` admissions per client and bucket |
| RateLimit.RefusedIffWindowIsFull | crates/api/src/rate_limit.rs:117-119 | a request is refused if and only if its client has `limit` admissions less than a window old |
| RateLimit.ClientsAreIsolated | crates/api/src/rate_limit.rs:108-110 | what a client is granted depends only on its own requests |
| WordWrap.LinesKeepWords | crates/printing/src/pdf.rs:82-92 | reading words line by line gives the words of the whole text |
| WordWrap.TrimKeepsWords | crates/printing/src/pdf.rs:83-87 | trimming a line loses no word |
| WordWrap.GreedyIsWrapping | crates/printing/src/pdf.rs:90-108 | greedy lines hold all words in order, each fitting or a single over-long word |
| WordWrap.GreedyStaysAhead | crates/printing/src/pdf.rs:90-108 | greedy from a later word needs no more lines than any wrapping from an earlier one |
| WordWrap.GreedyUsesFewestLines | crates/printing/src/pdf.rs:90-108 | no wrapping of a line's words has fewer lines than greedy |
| WordWrap.WrapWords | crates/printing/src/pdf.rs:90-108 | the source's loop over words builds the greedy lines |
| WordWrap.WrapLines | crates/printing/src/pdf.rs:82-116 | the whole function gives the greedy lines of every input line, or one line with a space |
| WordWrap.WrappedKeepsWords | crates/printing/src/pdf.rs:82-116 | splitting the lines at spaces gives exactly the words of the text; the single space stands for a text without words and nothing else |
| WordWrap.WrappedFits | crates/printing/src/pdf.rs:94-107 | every line fits the width or is one word of the text |
| WordWrap.WordsArePartedByWhitespace | crates/printing/src/pdf.rs:93 | white space, and nothing else, parts words |
| WordWrap.BreakEndsALine | crates/printing/src/pdf.rs:82-92 | a line break ends a printed line: what is before it and what is after it are wrapped on their own |
| WordWrap.UnbrokenTextTakesFewestLines | crates/printing/src/pdf.rs:90-108 | a text without a line break takes no more lines than any grouping of its words that fits |
| PdfText.EscapeOne | crates/printing/src/pdf.rs:118-123 | the three replacements in sequence escape each character once |
| PdfText.EscapedReads | crates/printing/src/pdf.rs:118-123 | an escaped string, read after section 7.3.4.2 of ISO 32000-1, comes back with only its ends of line normalised, and the reader stops at its own parenthesis |
| PdfText.LiteralRoundTrip | crates/printing/src/pdf.rs:118-123 | it comes back unchanged if and only if it holds no carriage return |
| PdfText.BuildStream | crates/printing/src/pdf.rs:136-145 | the loop builds the content stream |
| PdfText.StreamRoundTrip | crates/printing/src/pdf.rs:136-145 | the strings of the content stream are exactly the lines |
| PdfText.WrappedHasNoCr | crates/printing/src/pdf.rs:82-116 | no wrapped line holds a carriage return |
| PdfText.PageHoldsTheWords | crates/printing/src/pdf.rs:131-145 | reading the page back and splitting at spaces gives exactly the words of the text |
| PdfPage.LinesAreStacked | crates/printing/src/pdf.rs:136-145 | read after sections 9.4.1 to 9.4.3 of ISO 32000-1, line i stands at x = 50, y = 792 - 14 i |
| PdfPage.OnePageHolds57Lines | crates/printing/src/pdf.rs:136-180 | the whole text is on the only page if and only if it wraps to at most 57 lines |
| PdfText.RenderText | crates/printing/src/pdf.rs:131-145 | wrapping at 90 characters and building the stream, end to end |

## Left out

- 64-bit widths: cents are unbounded naturals and integers, so the hub's saturating u64 and i64 operations and its u64 products are modelled without a limit; 32-bit quantities are modelled with their saturation, except that the plain u32 sums of matching quantities (promo_engine.rs:107-111, 165-177) are taken not to overflow.
- Percentages above 100% (`percent_bps > 10000`): excluded where a bound on discounts is claimed.
- Repeated line ids: ids are freshly generated, so a cart's lines are taken to have distinct ids.
- Promotions.ApplyPromosWithAttribution: the line results it also builds are in the pipeline module; unknown price fields of a line are passed through unchanged.
- Carts.Cart.ToOrder: carries only the fields money depends on; names, skus, notes, customer and timestamps are not part of the model.
- CartRuns.Handle: setting a customer, parking and gift-card or loyalty redemption are not among the commands; checks outside the cart (stock, catalog, coupon eligibility, payment capture, approvals) are taken to have passed; a command that fails one leaves the cart alone.
- Creating a cart under an existing id and recalling a parked cart: both overwrite the stored cart, so runs do not include them.
- The manual-discount command against the pipeline: the command applies stored discounts on top of current prices, which is modelled as it is; no equality between the two is claimed.
- Fiscal.SaleTransaction: tax rates, category names, tender types and the cash point are labels and are not part of the model; refund transactions, closings and the signing queue are not modelled.
- CommandLocks.AtMostOnce: assumes, for the key in question, that the response store's reads and writes succeed and that no request is dropped between succeeding and storing; what holds without that is `CommandLocks.StaysOnceIffSettled`. Executing a command is one step: a request dropped in the middle of it is not modelled.
- StreamSession.ReconnectIsContiguous: at most one publish is in flight, as the sequence number is taken outside the history lock and overlapping publishers could reorder entries; a client without a `since`, the SSE variant, the hello message and register presence are not modelled.
- Audit.EqualTipsMeanEqualLogs: assumes only that MAC outputs are non-empty and separator-free, as hexadecimal text is; the strength of HMAC is not a claim.
- Audit.AuditLog.VerifyChain: rows signed under another key id are checked for their link only, as in the source.
- Dispatcher.Outbox.DispatchDue: which due rows are fetched, and in which order, is a parameter; payloads are taken to be parseable and signatures are not computed.
- Blocking.OwedIffNotBlocked: the converse run makes attempts one at a time; that a cycle attempts everything it fetched is not required of a run.
- Dispatcher.Outbox.SettleFinished: which candidates the limited query returns is a parameter.
- Dispatcher.Outbox.RetryDeadLetter: the row's last error text is not modelled, here and elsewhere.
- PdfText.RenderText: works on characters, not on UTF-8 bytes; HTML tag and entity stripping, the object table and the cross-reference section of the file are not modelled.
- Catalog base prices, currency rounding, returns, shifts, gift cards, loyalty, availability and freshness: separate features the money pipeline and the protocols here do not depend on; each is mostly one decision on one record.
- HTTP, SQL, serialization, metrics, tracing, authentication, migrations and the front end.
