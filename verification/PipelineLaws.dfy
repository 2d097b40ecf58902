/** Laws of the pricing pipeline: it is idempotent, and its totals add up. */
module PipelineLaws {
  import opened Seqs
  import opened Pricing
  import opened Splitting
  import opened Promotions
  import opened PromoLaws
  import opened Carts
  import opened Pipeline

  // ---- what pricing leaves alone ----

  /** Lines that differ at most in their discount and tax. */
  ghost predicate SameGoods(a: seq<Line>, b: seq<Line>) {
    && |a| == |b|
    && forall i :: 0 <= i < |a| ==>
         b[i] == a[i].(discount := b[i].discount, tax := b[i].tax, taxInclusive := b[i].taxInclusive)
  }

  lemma ManualOneKeepsGoods(lines: seq<Line>, md: ManualDiscount)
    ensures SameGoods(lines, ManualOne(lines, md))
  {
  }

  lemma {:induction false} ManualAllKeepsGoods(lines: seq<Line>, mds: seq<ManualDiscount>)
    ensures SameGoods(lines, ManualAll(lines, mds))
    decreases |mds|
  {
    if mds != [] {
      ManualOneKeepsGoods(lines, mds[0]);
      ManualAllKeepsGoods(ManualOne(lines, mds[0]), mds[1..]);
    }
  }

  lemma PipelineKeepsGoods(c: CartValue, env: Env)
    ensures SameGoods(c.lines, PricedCart(c, env).lines)
  {
    var priced := PromoStage(c, PromoOutcome(c, env), env);
    ManualAllKeepsGoods(priced.lines, c.manual);
  }

  lemma {:induction false} SameGoodsSameSubtotal(a: seq<Line>, b: seq<Line>)
    requires SameGoods(a, b)
    ensures Subtotal(a) == Subtotal(b)
  {
    if a != [] {
      SameGoodsSameSubtotal(a[1..], b[1..]);
      assert a[0].lineTotal == b[0].lineTotal;
    }
  }

  lemma SameGoodsSameBasket(a: seq<Line>, b: seq<Line>, env: Env)
    requires SameGoods(a, b)
    ensures BasketOf(a, env) == BasketOf(b, env)
  {
    SameGoodsSameSubtotal(a, b);
    assert BasketLines(a) == BasketLines(b);
  }

  // ---- the promotions applied the second time ----

  lemma {:induction false} AppliedAreGiven(ps: seq<Promotion>, b: Basket, t: Tally)
    ensures forall id :: id in ApplyAll(ps, b, t).ids ==> exists p :: p in ps && p.id == id
  {
    if ps != [] {
      var first := ApplyOne(ps[0], b, t);
      AppliedAreGiven(ps[1..], b, first.tally);
      forall id | id in ApplyAll(ps, b, t).ids ensures exists p :: p in ps && p.id == id {
        if id in first.ids {
          assert ps[0] in ps && ps[0].id == id;
        } else {
          assert id in ApplyAll(ps[1..], b, first.tally).ids;
          var p :| p in ps[1..] && p.id == id;
          assert p in ps;
        }
      }
    }
  }

  function Contributed(ids: seq<Uuid>): Promotion -> bool {
    (p: Promotion) => p.code.None? || p.id in ids
  }

  /** The second run applies the promotions of the first without the ones that took nothing off. */
  lemma SecondRunPromos(promos: seq<Promotion>, requested: seq<Uuid>, ids: seq<Uuid>)
    requires forall id :: id in ids ==> exists p :: p in PromosToApply(promos, requested) && p.id == id
    ensures PromosToApply(promos, ids) == Filter(PromosToApply(promos, requested), Contributed(ids))
  {
    var automatic := Filter(promos, IsAutomatic());
    var autoIds := Ids(automatic);
    var asked := Filter(promos, IsRequested(requested, autoIds));
    FilterAppend(automatic, asked, Contributed(ids));
    FilterMembers(promos, IsAutomatic());
    FilterMembers(promos, IsRequested(requested, autoIds));
    FilterAll(automatic, Contributed(ids));
    forall p | p in promos
      ensures IsRequested(ids, autoIds)(p) <==> IsRequested(requested, autoIds)(p) && Contributed(ids)(p)
    {
      if p.code.None? {
        assert p in automatic;
      }
      if p.id in ids && p.id !in autoIds {
        var q: Promotion :| q in automatic + asked && q.id == p.id;
        assert q in asked;
        var k :| 0 <= k < |asked| && asked[k] == q;
      }
    }
    FilterTwice(promos, IsRequested(requested, autoIds), Contributed(ids), IsRequested(ids, autoIds));
  }

  lemma SecondRunOutcome(c: CartValue, env: Env)
    requires DistinctLines(c.lines)
    ensures PromoOutcome(PricedCart(c, env), env) == PromoOutcome(c, env)
  {
    var c1 := PricedCart(c, env);
    var b := BasketOf(c.lines, env);
    var ps := PromosToApply(env.promos, c.promoIds);
    var sorted := SortBy(ps, PriorityKey());
    var t := InitialTally(b.lines);
    var ids := ApplyAll(sorted, b, t).ids;
    PipelineKeepsGoods(c, env);
    SameGoodsSameBasket(c.lines, c1.lines, env);
    DistinctBasket(c.lines, env);
    AppliedAreGiven(sorted, b, t);
    SortMembers(ps, PriorityKey());
    SecondRunPromos(env.promos, c.promoIds, ids);
    FilterSort(ps, PriorityKey(), Contributed(ids));
    DistinctIsInjective(b.lines);
    InitialTallyAt(b.lines);
    DropIdlePromos(sorted, b, t, Contributed(ids));
  }

  // ---- pricing the priced ----

  lemma RepricingPriced(a: seq<Line>, b: seq<Line>, discounts: map<Uuid, nat>, env: Env)
    requires SameGoods(a, b)
    ensures PromoPriced(a, discounts, env) == PromoPriced(b, discounts, env)
  {
    forall i | 0 <= i < |a|
      ensures PromoPriced(a, discounts, env)[i] == PromoPriced(b, discounts, env)[i]
    {
      var x, y := a[i].(discount := Get(discounts, a[i].lineId)), b[i].(discount := Get(discounts, b[i].lineId));
      assert WithTax(x, env) == WithTax(y, env);
    }
  }

  lemma {:induction false} CouponsPricedTwice(coupons: seq<Coupon>, env: Env, net: nat)
    ensures PricedCoupons(PricedCoupons(coupons, env, net), env, net) == PricedCoupons(coupons, env, net)
  {
    if coupons != [] {
      var first := PricedCoupon(coupons[0], env, net);
      assert PricedCoupon(first, env, net) == first;
      CouponsPricedTwice(coupons[1..], env, Sub(net, first.discount));
      var rest := PricedCoupons(coupons[1..], env, Sub(net, first.discount));
      assert ([first] + rest)[1..] == rest;
    }
  }

  /**
    Running the pipeline twice gives the cart that running it once gives: the same lines,
    applied promotions, coupons and state. Manual promotions that took nothing off are
    dropped from the cart after the first run, and that changes nothing.
   */
  lemma PipelineIsIdempotent(c: CartValue, env: Env)
    requires DistinctLines(c.lines)
    ensures PricedCart(PricedCart(c, env), env) == PricedCart(c, env)
  {
    var c1 := PricedCart(c, env);
    var outcome := PromoOutcome(c, env);
    SecondRunOutcome(c, env);
    PipelineKeepsGoods(c, env);
    RepricingPriced(c.lines, c1.lines, outcome.tally.discounts, env);
    var priced, priced1 := PromoStage(c, outcome, env), PromoStage(c1, outcome, env);
    assert priced1 == priced.(coupons := c1.coupons);
    CouponsPricedTwice(c.coupons, env, NetTotal(c1.lines));
  }

  // ---- totals ----

  lemma {:induction false} CouponsWithinNet(coupons: seq<Coupon>, env: Env, net: nat)
    ensures CouponTotal(PricedCoupons(coupons, env, net)) <= net
  {
    if coupons != [] {
      var first := PricedCoupon(coupons[0], env, net);
      CouponsWithinNet(coupons[1..], env, Sub(net, first.discount));
      var rest := PricedCoupons(coupons[1..], env, Sub(net, first.discount));
      assert ([first] + rest)[1..] == rest;
    }
  }

  lemma ManualSharesFit(lines: seq<Line>, md: ManualDiscount)
    ensures forall i :: 0 <= i < |lines| ==> ManualShares(lines, md)[i] <= Price(lines[i])
  {
    var nets := Prices(lines);
    if md.lineId.None? && Sum(nets) > 0 {
      CappedSharesFit(nets, Quotas(nets, md.amount, Sum(nets)), md.amount);
    }
  }

  lemma {:induction false} SameOver(a: seq<Line>, b: seq<Line>)
    requires |a| == |b| && forall i :: 0 <= i < |a| ==> Over(a[i]) == Over(b[i])
    ensures OverTotal(a) == OverTotal(b)
  {
    if a != [] {
      SameOver(a[1..], b[1..]);
    }
  }

  /** Manual discounts never take off more than a line still costs. */
  lemma {:induction false} ManualAddsNoOver(lines: seq<Line>, mds: seq<ManualDiscount>)
    ensures OverTotal(ManualAll(lines, mds)) == OverTotal(lines)
    decreases |mds|
  {
    if mds != [] {
      var next := ManualOne(lines, mds[0]);
      ManualSharesFit(lines, mds[0]);
      SameOver(lines, next);
      ManualAddsNoOver(next, mds[1..]);
    }
  }

  lemma ManualPricedOver(lines: seq<Line>, mds: seq<ManualDiscount>, env: Env)
    ensures OverTotal(ManualPriced(lines, mds, env)) == OverTotal(lines)
  {
    ManualAddsNoOver(lines, mds);
    SameOver(ManualAll(lines, mds), AllWithTax(ManualAll(lines, mds), env));
  }

  lemma {:induction false} OverOfPriced(lines: seq<Line>, priced: seq<Line>, discounts: map<Uuid, nat>)
    requires |lines| == |priced|
    requires forall i :: 0 <= i < |lines| ==>
      priced[i].lineTotal == lines[i].lineTotal && priced[i].discount == Get(discounts, lines[i].lineId)
    ensures OverTotal(priced) == Excess(BasketLines(lines), discounts)
  {
    if lines != [] {
      OverOfPriced(lines[1..], priced[1..], discounts);
      assert BasketLines(lines)[1..] == BasketLines(lines[1..]);
    }
  }

  lemma PipelineOver(c: CartValue, env: Env)
    requires DistinctLines(c.lines) && forall p :: p in env.promos ==> ValidPromo(p)
    ensures var r := PricedCart(c, env);
            OverTotal(r.lines) <= |r.promoIds| * Slack(|c.lines|)
  {
    var ps := PromosToApply(env.promos, c.promoIds);
    var automatic := Filter(env.promos, IsAutomatic());
    var asked := Filter(env.promos, IsRequested(c.promoIds, Ids(automatic)));
    FilterMembers(env.promos, IsAutomatic());
    FilterMembers(env.promos, IsRequested(c.promoIds, Ids(automatic)));
    forall p | p in ps ensures ValidPromo(p) {
      if p in automatic {
        var k :| 0 <= k < |automatic| && automatic[k] == p;
      } else {
        var k :| 0 <= k < |asked| && asked[k] == p;
      }
    }
    DistinctBasket(c.lines, env);
    PromotionsExcess(ps, BasketOf(c.lines, env));
    var outcome := PromoOutcome(c, env);
    var priced := PromoPriced(c.lines, outcome.tally.discounts, env);
    OverOfPriced(c.lines, priced, outcome.tally.discounts);
    ManualPricedOver(priced, c.manual, env);
  }

  lemma PipelineTaxesLines(c: CartValue, env: Env)
    ensures var r := PricedCart(c, env);
            forall i :: 0 <= i < |r.lines| ==> r.lines[i] == WithTax(r.lines[i], env)
  {
  }

  /**
    Each line of a priced cart is taxed on its price after all discounts, by the first rule of
    the category that the catalog gives its item, and not at all if no rule has that category.
   */
  lemma PipelineTaxes(c: CartValue, env: Env, i: nat)
    requires i < |PricedCart(c, env).lines|
    ensures var l := PricedCart(c, env).lines[i];
            var category := if l.itemId in env.categories then env.categories[l.itemId] else NIL_UUID;
            var net := if l.lineTotal >= l.discount then l.lineTotal - l.discount else 0;
      && (forall k :: FirstRule(env.rules, category, k) ==>
            l.tax == ApplyTax(net, env.rules[k].rateBps, env.rules[k].inclusive) && l.taxInclusive == env.rules[k].inclusive)
      && (NoRule(env.rules, category) ==> l.tax == 0 && !l.taxInclusive)
  {
    var l := PricedCart(c, env).lines[i];
    PipelineTaxesLines(c, env);
    assert l == WithTax(l, env);
    TaxedByFirstRule(Price(l), CategoryOf(env.categories, l.itemId), env.rules);
  }

  /**
    After pricing, the total plus the coupons is the gross of the lines, so the saturating
    subtraction in the total never cuts anything off; and the total is the subtotal less all
    discounts plus the exclusive tax, up to the cents by which promotion splits discount a
    line by more than its total, at most the slack of one split per applied promotion.
   */
  lemma PipelineTotals(c: CartValue, env: Env)
    requires DistinctLines(c.lines) && forall p :: p in env.promos ==> ValidPromo(p)
    ensures var r := PricedCart(c, env);
      && CouponTotal(r.coupons) <= NetTotal(r.lines)
      && Total(r) + CouponTotal(r.coupons) == GrossTotal(r.lines)
      && Total(r) + (LineDiscounts(r.lines) + CouponTotal(r.coupons))
           == Subtotal(c.lines) + ExclusiveTaxTotal(r.lines) + OverTotal(r.lines)
      && OverTotal(r.lines) <= |r.promoIds| * Slack(|c.lines|)
  {
    var r := PricedCart(c, env);
    CouponsWithinNet(c.coupons, env, NetTotal(r.lines));
    NetWithinGross(r.lines);
    GrossFromSubtotal(r.lines);
    PipelineKeepsGoods(c, env);
    SameGoodsSameSubtotal(c.lines, r.lines);
    PipelineOver(c, env);
  }
}
