/**
  The promotion engine: which units a promotion may discount, how much it takes off, and how
  the discount is spread over the lines.

  Cents are unbounded naturals. Quantities are 32-bit, with the source's saturating
  operations written out.
 */
module Promotions {
  import opened Seqs
  import opened Pricing
  import opened Splitting

  const U32_MAX: nat := 0xFFFF_FFFF

  type U32 = x: nat | x <= 0xFFFF_FFFF

  function SatMul(a: nat, b: nat): U32 { Min(a * b, U32_MAX) }

  function SatAdd(a: nat, b: nat): U32 { Min(a + b, U32_MAX) }

  /** What the engine reads of a cart line. */
  datatype BasketLine = BasketLine(lineId: Uuid, itemId: Uuid, quantity: U32, lineTotal: nat)

  datatype PromotionType =
    | PercentageOff(percentBps: nat)
    | FixedAmountOff(amountCents: nat)
    | BuyXGetY(buyQuantity: U32, getQuantity: U32)
    | PriceOverride(priceCents: nat)

  datatype PromoCondition =
    | MinBasketAmount(amountCents: nat)
    | ItemInBasket(itemId: Uuid, minQuantity: U32)
    | CategoryInBasket(categoryId: Uuid, minQuantity: U32)

  datatype PromoAction =
    | ApplyToItem(itemId: Uuid, maxQuantity: Option<U32>)
    | ApplyToCategory(categoryId: Uuid, maxQuantity: Option<U32>)
    | ApplyToBasket

  datatype Promotion = Promotion(
    id: Uuid, code: Option<string>, promoType: PromotionType, priority: nat,
    validFrom: int, validUntil: Option<int>,
    conditions: seq<PromoCondition>, actions: seq<PromoAction>)

  /** What stays fixed while promotions are applied: the lines, their subtotal, the catalog and the clock. */
  datatype Basket = Basket(lines: seq<BasketLine>, subtotal: nat, categories: map<Uuid, Uuid>, now: int)

  /** The engine's two hash maps, both keyed by line id. */
  datatype Tally = Tally(discounts: map<Uuid, nat>, totals: map<Uuid, nat>)

  /** A line with the number of its units a promotion may discount. */
  datatype Capped = Capped(line: BasketLine, eligible: nat)

  datatype Outcome = Outcome(tally: Tally, ids: seq<Uuid>)

  function CategoryOf(categories: map<Uuid, Uuid>, item: Uuid): Uuid {
    if item in categories then categories[item] else NIL_UUID
  }

  ghost predicate DistinctIds(lines: seq<BasketLine>) {
    forall i, j :: 0 <= i < j < |lines| ==> lines[i].lineId != lines[j].lineId
  }

  // ---- which promotions run ----

  function Live(p: Promotion, now: int): bool {
    p.validFrom <= now && (p.validUntil.Some? ==> now <= p.validUntil.value)
  }

  function ItemUnits(item: Uuid): BasketLine -> nat {
    (l: BasketLine) => if l.itemId == item then l.quantity else 0
  }

  function CategoryUnits(category: Uuid, categories: map<Uuid, Uuid>): BasketLine -> nat {
    (l: BasketLine) => if CategoryOf(categories, l.itemId) == category then l.quantity else 0
  }

  predicate ConditionMet(c: PromoCondition, b: Basket) {
    match c
    case MinBasketAmount(amount) => b.subtotal >= amount
    case ItemInBasket(item, least) => SumBy(b.lines, ItemUnits(item)) >= least
    case CategoryInBasket(category, least) => SumBy(b.lines, CategoryUnits(category, b.categories)) >= least
  }

  predicate ConditionsMet(conditions: seq<PromoCondition>, b: Basket) {
    forall c | c in conditions :: ConditionMet(c, b)
  }

  predicate Runs(p: Promotion, b: Basket) {
    Live(p, b.now) && ConditionsMet(p.conditions, b)
  }

  // ---- how many units it may discount ----

  /** The first action that names an item or a category. */
  function TargetAction(actions: seq<PromoAction>): Option<PromoAction> {
    if actions == [] then None
    else if actions[0].ApplyToBasket? then TargetAction(actions[1..])
    else Some(actions[0])
  }

  predicate Triggers(c: PromoCondition, target: PromoAction) {
    || (c.ItemInBasket? && target.ApplyToItem? && c.itemId == target.itemId)
    || (c.CategoryInBasket? && target.ApplyToCategory? && c.categoryId == target.categoryId)
  }

  function TriggerUnits(conditions: seq<PromoCondition>, target: PromoAction): Option<nat> {
    if conditions == [] then None
    else if Triggers(conditions[0], target) then Some(conditions[0].minQuantity)
    else TriggerUnits(conditions[1..], target)
  }

  function TargetUnits(target: PromoAction, categories: map<Uuid, Uuid>): BasketLine -> nat {
    match target
    case ApplyToItem(item, _) => ItemUnits(item)
    case ApplyToCategory(category, _) => CategoryUnits(category, categories)
    case ApplyToBasket => (l: BasketLine) => 0
  }

  function EffectiveMaxUnits(actions: seq<PromoAction>, conditions: seq<PromoCondition>, b: Basket): Option<U32> {
    match TargetAction(actions)
    case None => None
    case Some(target) =>
      if target.ApplyToBasket? then None
      else
        var trigger := TriggerUnits(conditions, target);
        var groups :=
          if trigger.Some? && trigger.value > 0 then
            Max(SumBy(b.lines, TargetUnits(target, b.categories)) / trigger.value, 1)
          else 1;
        match target.maxQuantity
        case Some(most) => Some(SatMul(most, groups))
        case None => match trigger
                     case Some(least) => Some(SatMul(least, groups))
                     case None => None
  }

  predicate Matches(l: BasketLine, a: PromoAction, categories: map<Uuid, Uuid>) {
    match a
    case ApplyToItem(item, _) => item == l.itemId
    case ApplyToCategory(category, _) => category == CategoryOf(categories, l.itemId)
    case ApplyToBasket => true
  }

  predicate ActionApplies(l: BasketLine, actions: seq<PromoAction>, categories: map<Uuid, Uuid>) {
    actions == [] || exists a | a in actions :: Matches(l, a, categories)
  }

  function LineKey(): BasketLine -> int { (l: BasketLine) => l.lineId }

  function Applies(p: Promotion, b: Basket): BasketLine -> bool {
    (l: BasketLine) => ActionApplies(l, p.actions, b.categories)
  }

  /** The lines the promotion applies to, in order of their ids. */
  function Applicable(p: Promotion, b: Basket): seq<BasketLine> {
    SortBy(Filter(b.lines, Applies(p, b)), LineKey())
  }

  /** Hands out at most `remaining` units over `lines`, skipping lines already free. */
  function CapLines(lines: seq<BasketLine>, totals: map<Uuid, nat>, remaining: nat): seq<Capped> {
    if lines == [] then []
    else if Get(totals, lines[0].lineId) == 0 then CapLines(lines[1..], totals, remaining)
    else
      var eligible := Min(lines[0].quantity, remaining);
      [Capped(lines[0], eligible)]
      + if remaining == eligible then [] else CapLines(lines[1..], totals, remaining - eligible)
  }

  function MaxUnits(p: Promotion, b: Basket): U32 {
    match EffectiveMaxUnits(p.actions, p.conditions, b)
    case Some(units) => units
    case None => U32_MAX
  }

  function CappedLines(p: Promotion, b: Basket, totals: map<Uuid, nat>): seq<Capped> {
    CapLines(Applicable(p, b), totals, MaxUnits(p, b))
  }

  method ApplicableLinesWithCap(p: Promotion, b: Basket, totals: map<Uuid, nat>) returns (out: seq<Capped>)
    ensures out == CappedLines(p, b, totals)
  {
    var applicable := Applicable(p, b);
    var remaining: nat := MaxUnits(p, b);
    out := [];
    var i := 0;
    while i < |applicable|
      invariant 0 <= i <= |applicable|
      invariant CappedLines(p, b, totals) == out + CapLines(applicable[i..], totals, remaining)
    {
      CapStep(applicable, totals, remaining, out, i);
      var line := applicable[i];
      i := i + 1;
      if Get(totals, line.lineId) == 0 {
        continue;
      }
      var eligible := Min(line.quantity, remaining);
      out := out + [Capped(line, eligible)];
      if remaining == eligible {
        return;
      }
      remaining := remaining - eligible;
    }
  }

  lemma CapStep(lines: seq<BasketLine>, totals: map<Uuid, nat>, remaining: nat, out: seq<Capped>, i: nat)
    requires i < |lines|
    ensures var eligible := Min(lines[i].quantity, remaining);
            var here := out + CapLines(lines[i..], totals, remaining);
            if Get(totals, lines[i].lineId) == 0 then here == out + CapLines(lines[i + 1..], totals, remaining)
            else if remaining == eligible then here == out + [Capped(lines[i], eligible)]
            else here == (out + [Capped(lines[i], eligible)]) + CapLines(lines[i + 1..], totals, remaining - eligible)
  {
    assert lines[i..][1..] == lines[i + 1..];
  }

  // ---- how much it takes off ----

  function EligibleCents(c: Capped, totals: map<Uuid, nat>): nat {
    if c.line.quantity == 0 then 0
    else Get(totals, c.line.lineId) * c.eligible / c.line.quantity
  }

  function Eligibles(capped: seq<Capped>, totals: map<Uuid, nat>): (es: seq<nat>)
    ensures |es| == |capped|
    ensures forall i :: 0 <= i < |capped| ==> es[i] == EligibleCents(capped[i], totals)
  {
    seq(|capped|, i requires 0 <= i < |capped| => EligibleCents(capped[i], totals))
  }

  /** `qty` units at the same price. */
  datatype Units = Units(price: nat, qty: nat)

  predicate Priced(c: Capped, totals: map<Uuid, nat>) {
    c.eligible != 0 && c.line.quantity != 0 && Get(totals, c.line.lineId) != 0
  }

  function UnitPrice(c: Capped, totals: map<Uuid, nat>): nat
    requires c.eligible != 0
  {
    EligibleCents(c, totals) / c.eligible
  }

  function EligibleUnits(capped: seq<Capped>, totals: map<Uuid, nat>): seq<Units> {
    if capped == [] then []
    else if Priced(capped[0], totals) then
      [Units(UnitPrice(capped[0], totals), capped[0].eligible)] + EligibleUnits(capped[1..], totals)
    else EligibleUnits(capped[1..], totals)
  }

  function Qty(): Units -> nat { (u: Units) => u.qty }

  function PriceKey(): Units -> int { (u: Units) => u.price }

  /** How many of the eligible units a buy-x-get-y promotion gives away. */
  function FreeUnits(buy: U32, get: U32, totalUnits: nat): nat {
    var bundle := SatAdd(buy, get);
    if bundle == 0 || get == 0 || totalUnits < bundle then 0
    else SatMul(totalUnits / bundle, get)
  }

  /** The price of the first `free` units. */
  function FirstUnits(units: seq<Units>, free: nat): nat {
    if units == [] then 0
    else
      var take := Min(units[0].qty, free);
      units[0].price * take + FirstUnits(units[1..], free - take)
  }

  function BundleDiscount(buy: U32, get: U32, units: seq<Units>): nat {
    FirstUnits(SortBy(units, PriceKey()), FreeUnits(buy, get, SumBy(units, Qty())))
  }

  function OverrideDiscount(price: nat, totals: map<Uuid, nat>): Capped -> nat {
    (c: Capped) =>
      if Priced(c, totals) && UnitPrice(c, totals) > price
      then (UnitPrice(c, totals) - price) * c.eligible else 0
  }

  function DiscountOn(t: PromotionType, capped: seq<Capped>, totals: map<Uuid, nat>): nat {
    var applicable := Sum(Eligibles(capped, totals));
    if applicable == 0 then 0
    else match t
      case PercentageOff(bps) => applicable * bps / BASIS_POINTS
      case FixedAmountOff(amount) => Min(amount, applicable)
      case BuyXGetY(buy, get) => Min(BundleDiscount(buy, get, EligibleUnits(capped, totals)), applicable)
      case PriceOverride(price) => Min(SumBy(capped, OverrideDiscount(price, totals)), applicable)
  }

  function PromoDiscount(p: Promotion, b: Basket, totals: map<Uuid, nat>): nat {
    DiscountOn(p.promoType, CappedLines(p, b, totals), totals)
  }

  lemma {:induction false} NothingFree(units: seq<Units>)
    ensures FirstUnits(units, 0) == 0
  {
    if units != [] {
      NothingFree(units[1..]);
    }
  }

  /** The source's arm for buy-x-get-y: sort by unit price and give units away until none is free. */
  method GiveAwayCheapest(buy: U32, get: U32, units: seq<Units>) returns (discount: nat)
    ensures discount == BundleDiscount(buy, get, units)
  {
    var bundle := SatAdd(buy, get);
    var totalUnits := SumBy(units, Qty());
    var sorted := SortBy(units, PriceKey());
    NothingFree(sorted);
    if bundle == 0 || get == 0 || totalUnits < bundle {
      return 0;
    }
    discount := TakeFirst(sorted, SatMul(totalUnits / bundle, get));
  }

  method TakeFirst(sorted: seq<Units>, units: nat) returns (discount: nat)
    ensures discount == FirstUnits(sorted, units)
  {
    var free: nat := units;
    discount := 0;
    for i := 0 to |sorted|
      invariant FirstUnits(sorted, units) == discount + FirstUnits(sorted[i..], free)
    {
      if free == 0 {
        NothingFree(sorted[i..]);
        return;
      }
      FirstUnitsStep(sorted, free, i);
      var take := Min(sorted[i].qty, free);
      discount := discount + sorted[i].price * take;
      free := free - take;
    }
  }

  lemma FirstUnitsStep(units: seq<Units>, free: nat, i: nat)
    requires i < |units|
    ensures var take := Min(units[i].qty, free);
            FirstUnits(units[i..], free) == units[i].price * take + FirstUnits(units[i + 1..], free - take)
  {
    assert units[i..][1..] == units[i + 1..];
  }

  method ComputePromoDiscount(p: Promotion, b: Basket, totals: map<Uuid, nat>) returns (discount: nat)
    ensures discount == PromoDiscount(p, b, totals)
  {
    var capped := ApplicableLinesWithCap(p, b, totals);
    var applicable := Sum(Eligibles(capped, totals));
    if applicable == 0 {
      return 0;
    }
    match p.promoType
    case PercentageOff(bps) =>
      discount := applicable * bps / BASIS_POINTS;
    case FixedAmountOff(amount) =>
      discount := Min(amount, applicable);
    case BuyXGetY(buy, get) =>
      discount := GiveAwayCheapest(buy, get, EligibleUnits(capped, totals));
      discount := Min(discount, applicable);
    case PriceOverride(price) =>
      discount := Min(SumBy(capped, OverrideDiscount(price, totals)), applicable);
  }

  // ---- how the discount is spread ----

  /** Adds each share to its line's discount and takes it off the line's total. */
  function AddShares(capped: seq<Capped>, shares: seq<nat>, t: Tally): Tally
    requires |shares| == |capped|
  {
    if capped == [] then t
    else AddShares(capped[1..], shares[1..], AddShare(capped[0].line.lineId, shares[0], t))
  }

  function AddShare(id: Uuid, share: nat, t: Tally): Tally {
    Tally(t.discounts[id := Get(t.discounts, id) + share], t.totals[id := Sub(Get(t.totals, id), share)])
  }

  function Spread(capped: seq<Capped>, d: nat, t: Tally): Tally {
    var es := Eligibles(capped, t.totals);
    if Sum(es) == 0 then t
    else AddShares(capped, PromoShares(es, Quotas(es, d, Sum(es)), d), t)
  }

  ghost predicate DistinctCapped(capped: seq<Capped>) {
    forall i, j :: 0 <= i < j < |capped| ==> capped[i].line.lineId != capped[j].line.lineId
  }

  method AllocateDiscountToLines(p: Promotion, b: Basket, t: Tally, d: nat) returns (t': Tally)
    requires DistinctIds(b.lines)
    ensures t' == Spread(CappedLines(p, b, t.totals), d, t)
  {
    var capped := ApplicableLinesWithCap(p, b, t.totals);
    CappedAreDistinct(p, b, t.totals);
    t' := t;
    if Sum(Eligibles(capped, t.totals)) > 0 {
      t' := SpreadOver(capped, t, d);
    }
  }

  method SpreadOver(capped: seq<Capped>, t: Tally, d: nat) returns (t': Tally)
    requires DistinctCapped(capped) && Sum(Eligibles(capped, t.totals)) > 0
    ensures t' == Spread(capped, d, t)
  {
    ghost var es := Eligibles(capped, t.totals);
    var total := Sum(Eligibles(capped, t.totals));
    ghost var quotas := Quotas(es, d, total);
    var remaining: nat := d;
    t' := t;
    var i := 0;
    while i < |capped|
      invariant 0 <= i <= |capped|
      invariant forall j :: i <= j < |capped| ==> EligibleCents(capped[j], t'.totals) == es[j]
      invariant Spread(capped, d, t)
             == AddShares(capped[i..], PromoShares(es[i..], quotas[i..], remaining), t')
    {
      var eligible := EligibleCents(capped[i], t'.totals);
      var quota := d * eligible / total;
      assert quota == quotas[i] by { QuotaAt(es, d, total, i); }
      var share :=
        if eligible == 0 then 0
        else if i == |capped| - 1 then remaining
        else Min(Min(quota, remaining), eligible);
      SpreadStep(capped, es, quotas, remaining, t', i);
      remaining := Sub(remaining, share);
      ghost var before := t';
      t' := AddShare(capped[i].line.lineId, share, t');
      forall j | i < j < |capped| ensures EligibleCents(capped[j], t'.totals) == es[j] {
        SameTotal(capped[j], before.totals, t'.totals);
      }
      i := i + 1;
    }
  }

  lemma SameTotal(c: Capped, totals: map<Uuid, nat>, totals': map<Uuid, nat>)
    requires Get(totals, c.line.lineId) == Get(totals', c.line.lineId)
    ensures EligibleCents(c, totals) == EligibleCents(c, totals')
  {
  }

  lemma SpreadStep(capped: seq<Capped>, es: seq<nat>, quotas: seq<nat>, remaining: nat, t: Tally, i: nat)
    requires i < |capped| == |es| == |quotas|
    ensures var share :=
              if es[i] == 0 then 0
              else if i == |capped| - 1 then remaining
              else Min(Min(quotas[i], remaining), es[i]);
            AddShares(capped[i..], PromoShares(es[i..], quotas[i..], remaining), t)
              == AddShares(capped[i + 1..], PromoShares(es[i + 1..], quotas[i + 1..], Sub(remaining, share)),
                           AddShare(capped[i].line.lineId, share, t))
  {
    assert es[i..][1..] == es[i + 1..] && quotas[i..][1..] == quotas[i + 1..];
    assert capped[i..][1..] == capped[i + 1..];
    var shares := PromoShares(es[i..], quotas[i..], remaining);
    assert shares[1..] == PromoShares(es[i + 1..], quotas[i + 1..], Sub(remaining, shares[0]));
  }

  // ---- all promotions ----

  function ApplyOne(p: Promotion, b: Basket, t: Tally): Outcome {
    if Runs(p, b) then
      var d := PromoDiscount(p, b, t.totals);
      Outcome(Spread(CappedLines(p, b, t.totals), d, t), if d > 0 then [p.id] else [])
    else Outcome(t, [])
  }

  function ApplyAll(ps: seq<Promotion>, b: Basket, t: Tally): Outcome {
    if ps == [] then Outcome(t, [])
    else
      var first := ApplyOne(ps[0], b, t);
      var rest := ApplyAll(ps[1..], b, first.tally);
      Outcome(rest.tally, first.ids + rest.ids)
  }

  /** Highest priority first; equal priorities keep their order. */
  function PriorityKey(): Promotion -> int { (p: Promotion) => -(p.priority as int) }

  function InitialTally(lines: seq<BasketLine>): Tally {
    if lines == [] then Tally(map[], map[])
    else
      var n := |lines| - 1;
      var t := InitialTally(lines[..n]);
      Tally(t.discounts[lines[n].lineId := 0], t.totals[lines[n].lineId := lines[n].lineTotal])
  }

  function ApplyPromos(ps: seq<Promotion>, b: Basket): Outcome {
    ApplyAll(SortBy(ps, PriorityKey()), b, InitialTally(b.lines))
  }

  /** Applies the promotions one by one and reports the ids of those that took something off. */
  method ApplyPromosWithAttribution(b: Basket, ps: seq<Promotion>) returns (discounts: map<Uuid, nat>, ids: seq<Uuid>)
    requires DistinctIds(b.lines)
    ensures discounts == ApplyPromos(ps, b).tally.discounts && ids == ApplyPromos(ps, b).ids
  {
    var t := InitialTally(b.lines);
    ids := [];
    var sorted := SortBy(ps, PriorityKey());
    var i := 0;
    while i < |sorted|
      invariant 0 <= i <= |sorted|
      invariant var rest := ApplyAll(sorted[i..], b, t);
                ApplyPromos(ps, b) == Outcome(rest.tally, ids + rest.ids)
    {
      var p := sorted[i];
      ApplyStep(sorted, b, t, ids, i);
      i := i + 1;
      if b.now < p.validFrom {
        continue;
      }
      if p.validUntil.Some? && b.now > p.validUntil.value {
        continue;
      }
      if !ConditionsMet(p.conditions, b) {
        continue;
      }
      var d := ComputePromoDiscount(p, b, t.totals);
      if d > 0 {
        ids := ids + [p.id];
      }
      t := AllocateDiscountToLines(p, b, t, d);
    }
    discounts := t.discounts;
  }

  lemma ApplyStep(sorted: seq<Promotion>, b: Basket, t: Tally, ids: seq<Uuid>, i: nat)
    requires i < |sorted|
    ensures var first := ApplyOne(sorted[i], b, t);
            var here, rest := ApplyAll(sorted[i..], b, t), ApplyAll(sorted[i + 1..], b, first.tally);
            && here.tally == rest.tally
            && ids + here.ids == (ids + first.ids) + rest.ids
            && (first.ids == [] ==> ids + first.ids == ids)
  {
    assert sorted[i..][1..] == sorted[i + 1..];
  }

  // ---- the capped lines are distinct lines of the basket ----

  lemma {:induction false} CapLinesFacts(lines: seq<BasketLine>, totals: map<Uuid, nat>, remaining: nat)
    requires DistinctIds(lines)
    ensures var capped := CapLines(lines, totals, remaining);
            && |capped| <= |lines|
            && DistinctCapped(capped)
            && forall i :: 0 <= i < |capped| ==>
                 && capped[i].line in lines
                 && capped[i].eligible <= capped[i].line.quantity
                 && Get(totals, capped[i].line.lineId) > 0
  {
    if lines != [] && Get(totals, lines[0].lineId) == 0 {
      CapLinesFacts(lines[1..], totals, remaining);
    } else if lines != [] {
      var eligible := Min(lines[0].quantity, remaining);
      if remaining != eligible {
        CapLinesFacts(lines[1..], totals, remaining - eligible);
        var rest := CapLines(lines[1..], totals, remaining - eligible);
        forall j | 0 <= j < |rest| ensures rest[j].line.lineId != lines[0].lineId {
          var k :| 0 <= k < |lines[1..]| && lines[1..][k] == rest[j].line;
          assert lines[k + 1] == rest[j].line;
        }
      }
    }
  }

  lemma {:induction false} FilterKeepsDistinct(lines: seq<BasketLine>, keep: BasketLine -> bool)
    requires DistinctIds(lines)
    ensures DistinctIds(Filter(lines, keep)) && |Filter(lines, keep)| <= |lines|
  {
    if lines != [] {
      FilterKeepsDistinct(lines[1..], keep);
      FilterMembers(lines[1..], keep);
      var rest := Filter(lines[1..], keep);
      forall j | 0 <= j < |rest| ensures rest[j].lineId != lines[0].lineId {
        var k :| 0 <= k < |lines[1..]| && lines[1..][k] == rest[j];
        assert lines[k + 1] == rest[j];
      }
    }
  }

  lemma {:induction false} InsertKeepsDistinct(x: BasketLine, lines: seq<BasketLine>)
    requires DistinctIds(lines) && forall l :: l in lines ==> l.lineId != x.lineId
    ensures DistinctIds(InsertBy(x, lines, LineKey()))
  {
    if lines != [] && x.lineId > lines[0].lineId {
      InsertKeepsDistinct(x, lines[1..]);
      InsertKeepsElements(x, lines[1..], LineKey());
      var rest := InsertBy(x, lines[1..], LineKey());
      forall j | 0 <= j < |rest| ensures rest[j].lineId != lines[0].lineId {
        assert rest[j] in multiset(rest);
        if rest[j] != x {
          assert rest[j] in lines[1..];
        }
      }
    }
  }

  lemma {:induction false} SortKeepsDistinct(lines: seq<BasketLine>)
    requires DistinctIds(lines)
    ensures DistinctIds(SortBy(lines, LineKey()))
  {
    if lines != [] {
      SortKeepsDistinct(lines[1..]);
      SortMembers(lines[1..], LineKey());
      forall l | l in SortBy(lines[1..], LineKey()) ensures l.lineId != lines[0].lineId {
        assert l in lines[1..];
      }
      InsertKeepsDistinct(lines[0], SortBy(lines[1..], LineKey()));
    }
  }

  lemma CappedAreDistinct(p: Promotion, b: Basket, totals: map<Uuid, nat>)
    requires DistinctIds(b.lines)
    ensures var capped := CappedLines(p, b, totals);
            && |capped| <= |b.lines|
            && DistinctCapped(capped)
            && forall i :: 0 <= i < |capped| ==>
                 && capped[i].line in b.lines
                 && capped[i].eligible <= capped[i].line.quantity
                 && Get(totals, capped[i].line.lineId) > 0
  {
    var kept := Filter(b.lines, Applies(p, b));
    FilterKeepsDistinct(b.lines, Applies(p, b));
    FilterMembers(b.lines, Applies(p, b));
    SortKeepsDistinct(kept);
    SortMembers(kept, LineKey());
    var sorted := Applicable(p, b);
    CapLinesFacts(sorted, totals, MaxUnits(p, b));
    assert |sorted| == |kept| by {
      SortByFacts(kept, LineKey());
      assert |multiset(sorted)| == |multiset(kept)|;
    }
    var capped := CappedLines(p, b, totals);
    forall i | 0 <= i < |capped| ensures capped[i].line in b.lines {
      assert capped[i].line in sorted;
      var k :| 0 <= k < |kept| && kept[k] == capped[i].line;
    }
  }
}
