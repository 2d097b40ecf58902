/**
  The pricing pipeline: promotions, then tax, then manual discounts, then coupons, applied
  to a cart in place.
 */
module Pipeline {
  import opened Seqs
  import opened Pricing
  import opened Splitting
  import opened Promotions
  import opened Carts

  /** What stays fixed while a cart is priced: tax rules, promotions, catalog categories and the clock. */
  datatype Env = Env(rules: seq<TaxRule>, promos: seq<Promotion>, categories: map<Uuid, Uuid>, now: int)

  // ---- which promotions are applied ----

  function IsAutomatic(): Promotion -> bool { (p: Promotion) => p.code.None? }

  function Ids(ps: seq<Promotion>): set<Uuid> { set p | p in ps :: p.id }

  function IsRequested(requested: seq<Uuid>, automatic: set<Uuid>): Promotion -> bool {
    (p: Promotion) => p.id in requested && p.id !in automatic
  }

  /** Promotions without a code, then those the cart asks for by id. */
  function PromosToApply(promos: seq<Promotion>, requested: seq<Uuid>): seq<Promotion> {
    var automatic := Filter(promos, IsAutomatic());
    automatic + Filter(promos, IsRequested(requested, Ids(automatic)))
  }

  function BasketOf(lines: seq<Line>, env: Env): Basket {
    Basket(BasketLines(lines), Subtotal(lines), env.categories, env.now)
  }

  function PromoOutcome(c: CartValue, env: Env): Outcome {
    ApplyPromos(PromosToApply(env.promos, c.promoIds), BasketOf(c.lines, env))
  }

  // ---- tax ----

  function WithTax(l: Line, env: Env): Line {
    var tax := TaxForLine(Price(l), CategoryOf(env.categories, l.itemId), env.rules);
    l.(tax := tax.taxCents, taxInclusive := tax.inclusive)
  }

  function AllWithTax(lines: seq<Line>, env: Env): (out: seq<Line>)
    ensures |out| == |lines| && forall i :: 0 <= i < |lines| ==> out[i] == WithTax(lines[i], env)
  {
    seq(|lines|, i requires 0 <= i < |lines| => WithTax(lines[i], env))
  }

  function ResultTax(r: PriceResult, l: Line, env: Env): PriceResult {
    var tax := TaxForLine(Sub(r.lineTotal, r.discount), CategoryOf(env.categories, l.itemId), env.rules);
    r.(tax := tax.taxCents, taxInclusive := tax.inclusive)
  }

  /** Taxes each result in place; stops at a result whose line is not in the cart. */
  method ApplyTaxToPricingResults(results: array<PriceResult>, cartLines: seq<Line>, env: Env) returns (ok: bool)
    modifies results
    ensures ok <==> forall i :: 0 <= i < results.Length ==> FindLine(cartLines, old(results[i]).lineId) < |cartLines|
    ensures ok ==> forall i :: 0 <= i < results.Length ==>
      var at := FindLine(cartLines, old(results[i]).lineId);
      at < |cartLines| && results[i] == ResultTax(old(results[i]), cartLines[at], env)
  {
    for i := 0 to results.Length
      invariant forall j :: i <= j < results.Length ==> results[j] == old(results[j])
      invariant forall j :: 0 <= j < i ==>
        var at := FindLine(cartLines, old(results[j]).lineId);
        at < |cartLines| && results[j] == ResultTax(old(results[j]), cartLines[at], env)
    {
      var at := FindLine(cartLines, results[i].lineId);
      if at == |cartLines| {
        return false;
      }
      results[i] := ResultTax(results[i], cartLines[at], env);
    }
    ok := true;
  }

  // ---- manual discounts ----

  function TakeOff(l: Line, cents: nat): Line { l.(discount := l.discount + cents) }

  function Prices(lines: seq<Line>): (out: seq<nat>)
    ensures |out| == |lines| && forall i :: 0 <= i < |lines| ==> out[i] == Price(lines[i])
  {
    seq(|lines|, i requires 0 <= i < |lines| => Price(lines[i]))
  }

  function TakeOffEach(lines: seq<Line>, shares: seq<nat>): (out: seq<Line>)
    requires |shares| == |lines|
    ensures |out| == |lines| && forall i :: 0 <= i < |lines| ==> out[i] == TakeOff(lines[i], shares[i])
  {
    seq(|lines|, i requires 0 <= i < |lines| => TakeOff(lines[i], shares[i]))
  }

  /** How much a manual discount takes off each line. */
  function ManualShares(lines: seq<Line>, md: ManualDiscount): (shares: seq<nat>)
    ensures |shares| == |lines|
  {
    var nets := Prices(lines);
    match md.lineId
    case Some(id) =>
      var at := FindLine(lines, id);
      seq(|lines|, i requires 0 <= i < |lines| => if i == at then Min(md.amount, nets[i]) else 0)
    case None =>
      if Sum(nets) == 0 then seq(|lines|, _ => 0)
      else CappedShares(nets, Quotas(nets, md.amount, Sum(nets)), md.amount)
  }

  function ManualOne(lines: seq<Line>, md: ManualDiscount): seq<Line> {
    if md.amount == 0 then lines else TakeOffEach(lines, ManualShares(lines, md))
  }

  function ManualAll(lines: seq<Line>, mds: seq<ManualDiscount>): seq<Line>
    decreases |mds|
  {
    if mds == [] then lines else ManualAll(ManualOne(lines, mds[0]), mds[1..])
  }

  function ManualPriced(lines: seq<Line>, mds: seq<ManualDiscount>, env: Env): seq<Line> {
    if mds == [] then lines else AllWithTax(ManualAll(lines, mds), env)
  }

  lemma CappedSharesStep(nets: seq<nat>, quotas: seq<nat>, shares: seq<nat>, i: nat, remaining: nat)
    requires i < |nets| == |quotas| == |shares| && shares[i..] == CappedShares(nets[i..], quotas[i..], remaining)
    ensures shares[i] == if i == |nets| - 1 then Min(remaining, nets[i]) else Min(Min(quotas[i], remaining), nets[i])
    ensures shares[i + 1..] == CappedShares(nets[i + 1..], quotas[i + 1..], remaining - shares[i])
  {
    assert nets[i..][1..] == nets[i + 1..] && quotas[i..][1..] == quotas[i + 1..];
    assert shares[i..][0] == shares[i] && shares[i..][1..] == shares[i + 1..];
  }

  /** Spreads a manual discount on the whole cart over its lines, in place. */
  method TakeOffCart(cart: Cart, amount: nat)
    requires Sum(Prices(cart.lines)) > 0
    modifies cart`lines
    ensures cart.lines == TakeOffEach(old(cart.lines),
      CappedShares(Prices(old(cart.lines)), Quotas(Prices(old(cart.lines)), amount, Sum(Prices(old(cart.lines)))), amount))
  {
    ghost var lines0 := cart.lines;
    ghost var nets := Prices(lines0);
    var totalNet := Sum(Prices(cart.lines));
    ghost var quotas := Quotas(nets, amount, totalNet);
    ghost var shares := CappedShares(nets, quotas, amount);
    var remaining: nat := amount;
    for i := 0 to |cart.lines|
      invariant |cart.lines| == |lines0|
      invariant forall j :: i <= j < |lines0| ==> cart.lines[j] == lines0[j]
      invariant forall j :: 0 <= j < i ==> cart.lines[j] == TakeOff(lines0[j], shares[j])
      invariant shares[i..] == CappedShares(nets[i..], quotas[i..], remaining)
    {
      var lineNet := Price(cart.lines[i]);
      var quota := amount * lineNet / totalNet;
      assert quota == quotas[i] by { QuotaAt(nets, amount, totalNet, i); }
      var add :=
        if i == |cart.lines| - 1 then Min(remaining, lineNet)
        else Min(Min(quota, remaining), lineNet);
      CappedSharesStep(nets, quotas, shares, i, remaining);
      remaining := remaining - add;
      cart.lines := cart.lines[i := TakeOff(cart.lines[i], add)];
    }
  }

  lemma TakeOffOne(lines: seq<Line>, shares: seq<nat>, at: nat, cents: nat)
    requires |shares| == |lines|
    requires forall i :: 0 <= i < |lines| ==> shares[i] == if i == at then cents else 0
    ensures TakeOffEach(lines, shares) == if at < |lines| then lines[at := TakeOff(lines[at], cents)] else lines
  {
  }

  /** A discount on one line touches only the first line with its id, if there is one. */
  lemma ManualOnLine(lines: seq<Line>, md: ManualDiscount)
    requires md.lineId.Some? && md.amount > 0
    ensures var at := FindLine(lines, md.lineId.value);
      ManualOne(lines, md) ==
        if at < |lines| then lines[at := TakeOff(lines[at], Min(md.amount, Price(lines[at])))] else lines
  {
    var at := FindLine(lines, md.lineId.value);
    TakeOffOne(lines, ManualShares(lines, md), at, if at < |lines| then Min(md.amount, Price(lines[at])) else 0);
  }

  lemma ManualOnFreeCart(lines: seq<Line>, md: ManualDiscount)
    requires md.lineId.None? && Sum(Prices(lines)) == 0
    ensures ManualOne(lines, md) == lines
  {
    if md.amount > 0 {
      assert TakeOffEach(lines, ManualShares(lines, md)) == lines;
    }
  }

  /** One stored discount, in place. */
  method ApplyManualDiscount(cart: Cart, md: ManualDiscount)
    modifies cart`lines
    ensures cart.lines == ManualOne(old(cart.lines), md)
  {
    if md.amount == 0 {
      return;
    }
    match md.lineId
    case Some(id) =>
      ManualOnLine(cart.lines, md);
      var at := FindLine(cart.lines, id);
      if at < |cart.lines| {
        cart.lines := cart.lines[at := TakeOff(cart.lines[at], Min(md.amount, Price(cart.lines[at])))];
      }
    case None =>
      if Sum(Prices(cart.lines)) == 0 {
        ManualOnFreeCart(cart.lines, md);
        return;
      }
      TakeOffCart(cart, md.amount);
  }

  method TaxLines(cart: Cart, env: Env)
    modifies cart`lines
    ensures cart.lines == AllWithTax(old(cart.lines), env)
  {
    ghost var lines0 := cart.lines;
    for i := 0 to |cart.lines|
      invariant |cart.lines| == |lines0|
      invariant forall j :: i <= j < |lines0| ==> cart.lines[j] == lines0[j]
      invariant forall j :: 0 <= j < i ==> cart.lines[j] == WithTax(lines0[j], env)
    {
      cart.lines := cart.lines[i := WithTax(cart.lines[i], env)];
    }
  }

  method ApplyManualDiscountsToLines(cart: Cart, env: Env)
    modifies cart`lines
    ensures cart.lines == ManualPriced(old(cart.lines), cart.manual, env)
  {
    if cart.manual == [] {
      return;
    }
    var mds := cart.manual;
    for k := 0 to |mds|
      invariant ManualAll(old(cart.lines), mds) == ManualAll(cart.lines, mds[k..])
    {
      assert mds[k..][1..] == mds[k + 1..];
      ApplyManualDiscount(cart, mds[k]);
    }
    TaxLines(cart, env);
  }

  // ---- coupons ----

  function Lower(ch: char): char {
    if 'A' <= ch <= 'Z' then ch + ('a' - 'A') else ch
  }

  predicate SameCode(a: string, b: string) {
    |a| == |b| && forall i | 0 <= i < |a| :: Lower(a[i]) == Lower(b[i])
  }

  function FindCode(promos: seq<Promotion>, code: string): Option<Promotion> {
    if promos == [] then None
    else if promos[0].code.Some? && SameCode(promos[0].code.value, code) then Some(promos[0])
    else FindCode(promos[1..], code)
  }

  function CouponDiscountFromPromo(t: PromotionType, net: nat): nat {
    match t
    case PercentageOff(bps) => net * bps / BASIS_POINTS
    case FixedAmountOff(amount) => Min(amount, net)
    case BuyXGetY(_, _) => 0
    case PriceOverride(_) => 0
  }

  function PricedCoupon(c: Coupon, env: Env, net: nat): Coupon {
    match FindCode(env.promos, c.code)
    case None => c.(discount := 0)
    case Some(p) =>
      if !Live(p, env.now) then c.(discount := 0)
      else c.(couponId := p.id, discount := Min(CouponDiscountFromPromo(p.promoType, net), net))
  }

  /** Each coupon is priced on what the coupons before it have left of the basket. */
  function PricedCoupons(coupons: seq<Coupon>, env: Env, net: nat): (out: seq<Coupon>)
    ensures |out| == |coupons|
  {
    if coupons == [] then []
    else
      var first := PricedCoupon(coupons[0], env, net);
      [first] + PricedCoupons(coupons[1..], env, Sub(net, first.discount))
  }

  method ApplyCouponDiscounts(cart: Cart, env: Env)
    modifies cart`coupons
    ensures cart.coupons == PricedCoupons(old(cart.coupons), env, NetTotal(cart.lines))
  {
    ghost var coupons0 := cart.coupons;
    var net := NetTotal(cart.lines);
    ghost var goal := PricedCoupons(coupons0, env, net);
    for i := 0 to |cart.coupons|
      invariant |cart.coupons| == |coupons0|
      invariant forall j :: i <= j < |coupons0| ==> cart.coupons[j] == coupons0[j]
      invariant cart.coupons[..i] == goal[..i]
      invariant goal[i..] == PricedCoupons(coupons0[i..], env, net)
    {
      var coupon := PricedCoupon(cart.coupons[i], env, net);
      assert coupons0[i..][1..] == coupons0[i + 1..];
      assert goal[i..][0] == goal[i] && goal[i..][1..] == goal[i + 1..];
      cart.coupons := cart.coupons[i := coupon];
      net := Sub(net, coupon.discount);
    }
  }

  // ---- the whole pipeline ----

  function PromoPriced(lines: seq<Line>, discounts: map<Uuid, nat>, env: Env): (out: seq<Line>)
    ensures |out| == |lines|
    ensures forall i :: 0 <= i < |lines| ==>
      out[i] == WithTax(lines[i].(discount := Get(discounts, lines[i].lineId)), env)
  {
    seq(|lines|, i requires 0 <= i < |lines| =>
      WithTax(lines[i].(discount := Get(discounts, lines[i].lineId)), env))
  }

  predicate AnyDiscount(lines: seq<Line>) { exists l | l in lines :: l.discount > 0 }

  predicate AnyCoupon(coupons: seq<Coupon>) { exists c | c in coupons :: c.discount > 0 }

  /** Promotions and tax. */
  function PromoStage(c: CartValue, outcome: Outcome, env: Env): CartValue {
    c.(state := StateOfLines(c.lines), lines := PromoPriced(c.lines, outcome.tally.discounts, env),
       promoIds := outcome.ids)
  }

  /** Manual discounts and coupons, and the state they lead to. */
  function DiscountStage(c: CartValue, appliedAny: bool, env: Env): CartValue {
    var lines := ManualPriced(c.lines, c.manual, env);
    var coupons := PricedCoupons(c.coupons, env, NetTotal(lines));
    c.(state := if appliedAny || c.manual != [] || AnyCoupon(coupons) then Discounted else c.state,
       lines := lines, coupons := coupons)
  }

  /** The cart the pipeline leaves behind. */
  function PricedCart(c: CartValue, env: Env): CartValue {
    var priced := PromoStage(c, PromoOutcome(c, env), env);
    DiscountStage(priced, AnyDiscount(priced.lines), env)
  }

  function ResultFor(l: Line, discounts: map<Uuid, nat>): PriceResult {
    PriceResult(l.lineId, l.unitPrice, l.lineTotal, Get(discounts, l.lineId), l.tax, l.taxInclusive)
  }

  lemma DistinctBasket(lines: seq<Line>, env: Env)
    requires DistinctLines(lines)
    ensures DistinctIds(BasketOf(lines, env).lines)
  {
  }

  function ResultsFor(lines: seq<Line>, discounts: map<Uuid, nat>, env: Env): (out: seq<PriceResult>)
    ensures |out| == |lines|
    ensures forall i :: 0 <= i < |lines| ==> out[i] == ResultTax(ResultFor(lines[i], discounts), lines[i], env)
  {
    seq(|lines|, i requires 0 <= i < |lines| => ResultTax(ResultFor(lines[i], discounts), lines[i], env))
  }

  /** Promotions and tax: one taxed result for every line. */
  method PromoResults(lines: seq<Line>, requested: seq<Uuid>, env: Env)
    returns (ok: bool, results: seq<PriceResult>, ids: seq<Uuid>)
    requires DistinctLines(lines)
    ensures var outcome := ApplyPromos(PromosToApply(env.promos, requested), BasketOf(lines, env));
            ok && ids == outcome.ids && results == ResultsFor(lines, outcome.tally.discounts, env)
  {
    DistinctBasket(lines, env);
    var discounts;
    discounts, ids := ApplyPromosWithAttribution(BasketOf(lines, env), PromosToApply(env.promos, requested));
    var a := new PriceResult[|lines|](i requires 0 <= i < |lines| => ResultFor(lines[i], discounts));
    forall i | 0 <= i < |lines| ensures FindLine(lines, a[i].lineId) == i {
      assert a[i].lineId == lines[i].lineId;
    }
    ok := ApplyTaxToPricingResults(a, lines, env);
    results := a[..];
  }

  lemma ResultsPriceLines(lines: seq<Line>, discounts: map<Uuid, nat>, env: Env)
    requires DistinctLines(lines)
    ensures SetPrices(lines, ResultsFor(lines, discounts, env)) == PromoPriced(lines, discounts, env)
  {
    var results := ResultsFor(lines, discounts, env);
    SetPricesPointwise(lines, results, 0);
    assert results[0..] == results;
  }

  lemma AnyResult(lines: seq<Line>, discounts: map<Uuid, nat>, env: Env)
    ensures (exists r | r in ResultsFor(lines, discounts, env) :: r.discount > 0)
        <==> AnyDiscount(PromoPriced(lines, discounts, env))
  {
    var results, priced := ResultsFor(lines, discounts, env), PromoPriced(lines, discounts, env);
    if r :| r in results && r.discount > 0 {
      var i :| 0 <= i < |results| && results[i] == r;
      assert priced[i] in priced && priced[i].discount > 0;
    }
    if l :| l in priced && l.discount > 0 {
      var i :| 0 <= i < |priced| && priced[i] == l;
      assert results[i] in results && results[i].discount > 0;
    }
  }

  method DiscountCart(cart: Cart, appliedAny: bool, env: Env)
    modifies cart
    ensures cart.Value() == DiscountStage(old(cart.Value()), appliedAny, env)
  {
    ApplyManualDiscountsToLines(cart, env);
    if cart.coupons != [] {
      ApplyCouponDiscounts(cart, env);
    }
    if appliedAny || cart.manual != [] {
      cart.SetDiscounted();
    }
    if exists c | c in cart.coupons :: c.discount > 0 {
      cart.SetDiscounted();
    }
  }

  method RunPricingPipeline(cart: Cart, env: Env) returns (ok: bool)
    requires DistinctLines(cart.lines)
    modifies cart
    ensures ok && cart.Value() == PricedCart(old(cart.Value()), env)
  {
    var results, ids;
    ok, results, ids := PromoResults(cart.lines, cart.promoIds, env);
    if !ok {
      return;
    }
    ghost var outcome := PromoOutcome(cart.Value(), env);
    AnyResult(cart.lines, outcome.tally.discounts, env);
    ResultsPriceLines(cart.lines, outcome.tally.discounts, env);
    var appliedAny := exists r | r in results :: r.discount > 0;
    cart.promoIds := ids;
    cart.ApplyPricing(results);
    assert cart.Value() == PromoStage(old(cart.Value()), outcome, env);
    DiscountCart(cart, appliedAny, env);
  }
}
