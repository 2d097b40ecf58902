/**
  When the coupons of a cart are all taken off its total. The total stops at zero, so coupons
  beyond the gross of the lines are cut off; pricing never leaves such a cart, but two commands
  change the lines without pricing the coupons again.
 */
module CouponLaws {
  import opened Seqs
  import opened Carts
  import opened Pipeline
  import opened PipelineLaws
  import opened CartRuns
  import opened FiscalCases
  import Splitting

  /** The coupons are within the gross of the lines, so the total takes all of them off. */
  predicate CouponsFit(c: CartValue) { Total(c) + CouponTotal(c.coupons) == GrossTotal(c.lines) }

  lemma FitIsWithinGross(c: CartValue)
    ensures CouponsFit(c) <==> CouponTotal(c.coupons) <= GrossTotal(c.lines)
  {
  }

  lemma PricingFits(c: CartValue, env: Env)
    ensures CouponsFit(PricedCart(c, env))
  {
    var r := PricedCart(c, env);
    CouponsWithinNet(c.coupons, env, NetTotal(r.lines));
    NetWithinGross(r.lines);
  }

  /** Whether the coupons will fit after a command, told from the cart before it. */
  predicate WillFit(c: CartValue, cmd: Command, env: Env) {
    if IsEdit(cmd) && CanEdit(c.state) && Change(c, cmd, env).Some? then
      var changed := Change(c, cmd, env).value;
      if cmd.ApplyManualDiscount? then
        CouponTotal(c.coupons) <= GrossTotal(ManualPriced(c.lines, changed.manual, env))
      else if cmd.RemoveLine? && changed.lines == [] then CouponTotal(c.coupons) == 0
      else true
    else
      CouponsFit(c) || (cmd.VoidCart? && !c.state.Finalized? && !c.state.Voided?)
  }

  lemma SettledFits(changed: CartValue, cmd: Command, env: Env)
    ensures CouponsFit(Settle(changed, cmd, env)) <==>
      if cmd.ApplyManualDiscount? then CouponTotal(changed.coupons) <= GrossTotal(ManualPriced(changed.lines, changed.manual, env))
      else if cmd.RemoveLine? && changed.lines == [] then CouponTotal(changed.coupons) == 0
      else true
  {
    if cmd.ApplyManualDiscount? {
      FitIsWithinGross(Settle(changed, cmd, env));
    } else if cmd.RemoveLine? && changed.lines == [] {
      FitIsWithinGross(changed);
    } else {
      PricingFits(changed, env);
    }
  }

  lemma ChangeKeepsCoupons(c: CartValue, cmd: Command, env: Env)
    requires Change(c, cmd, env).Some? && (cmd.ApplyManualDiscount? || cmd.RemoveLine?)
    ensures Change(c, cmd, env).value.coupons == c.coupons
    ensures cmd.ApplyManualDiscount? ==> Change(c, cmd, env).value.lines == c.lines
  {
  }

  lemma EditWillFit(c: CartValue, cmd: Command, env: Env)
    requires IsEdit(cmd) && CanEdit(c.state) && Change(c, cmd, env).Some?
    ensures CouponsFit(Step(c, cmd, env)) <==> WillFit(c, cmd, env)
  {
    var changed := Change(c, cmd, env).value;
    assert Step(c, cmd, env) == Settle(changed, cmd, env);
    SettledFits(changed, cmd, env);
    if cmd.ApplyManualDiscount? || cmd.RemoveLine? {
      ChangeKeepsCoupons(c, cmd, env);
    }
  }

  /**
    For every cart and command, exactly when the coupons fit afterwards: any repricing makes
    them fit; a manual discount keeps them only within what it leaves of the gross, and
    removing the last line only if they are worth nothing.
   */
  lemma FitsAfterStep(c: CartValue, cmd: Command, env: Env)
    ensures CouponsFit(Step(c, cmd, env)) <==> WillFit(c, cmd, env)
  {
    if IsEdit(cmd) && CanEdit(c.state) && Change(c, cmd, env).Some? {
      EditWillFit(c, cmd, env);
    } else if cmd.AddTender? {
      assert Total(WithPayment(c, cmd.payment)) == Total(c);
    } else {
      assert Total(c.(state := Tendering)) == Total(c) == Total(c.(state := Finalized));
    }
  }

  /** In every run without manual discounts and line removals the coupons fit. */
  lemma {:induction false} PlainRunsFit(c: CartValue, calls: seq<Call>)
    requires CouponsFit(c)
    requires forall i :: 0 <= i < |calls| ==> !calls[i].cmd.ApplyManualDiscount? && !calls[i].cmd.RemoveLine?
    ensures CouponsFit(Run(c, calls))
    decreases |calls|
  {
    if calls != [] {
      FitsAfterStep(c, calls[0].cmd, calls[0].env);
      PlainRunsFit(Step(c, calls[0].cmd, calls[0].env), calls[1..]);
    }
  }

  // ---- runs on which they do not ----

  /** One line of one cent, taken off by a coupon. */
  function OneCentCart(state: CartState, coupons: seq<Coupon>): CartValue {
    CartValue(state, OneLine(), [], coupons, [], [])
  }

  const CENT: Coupon := Coupon(1, "C", 1)

  lemma OneCentSums()
    ensures NetTotal(OneLine()) == 1 && CouponTotal([CENT]) == 1 && CouponTotal([]) == 0
  {
    var coupons := [CENT];
    assert OneLine()[1..] == [] && coupons[1..] == [];
    assert CouponTotal(coupons) == 1 + CouponTotal([]);
  }

  lemma CentPriced()
    ensures PricedCoupons([Coupon(1, "C", 0)], SHOP, 1) == [CENT] && AnyCoupon([CENT])
  {
    OnlyByCoupon();
    var coupon := Coupon(1, "C", 0);
    assert PricedCoupon(coupon, SHOP, 1) == CENT;
    assert [coupon][1..] == [] && CENT in [CENT];
  }

  lemma CentApplied()
    ensures Step(OneCentCart(Itemized, []), ApplyCoupon(1, "C", "C"), SHOP) == OneCentCart(Discounted, [CENT])
  {
    AskedForCoupon(OneCentCart(Itemized, []));
    OnlyByCoupon();
    OneCentSums();
    CentPriced();
    PlainPricing(OneCentCart(Itemized, [Coupon(1, "C", 0)]), SHOP);
  }

  function Lastly(last: Command): seq<Call> { [Call(last, SHOP)] + [] }

  function CouponThen(last: Command): seq<Call> { [Call(ApplyCoupon(1, "C", "C"), SHOP)] + Lastly(last) }

  function CouponedCent(last: Command): seq<Call> { Adding(1, 1, CouponThen(last)) }

  ghost predicate Reaches(c: CartValue, calls: seq<Call>, end: CartValue) {
    AllFresh(c, calls) && StopsWhenPaid(c, calls) && Run(c, calls) == end
  }

  lemma LastlyReaches(last: Command)
    requires Fresh(OneCentCart(Discounted, [CENT]), last)
    ensures Reaches(OneCentCart(Discounted, [CENT]), Lastly(last), Step(OneCentCart(Discounted, [CENT]), last, SHOP))
  {
    RunFrom(OneCentCart(Discounted, [CENT]), Call(last, SHOP), []);
  }

  lemma CouponThenReaches(last: Command, end: CartValue)
    requires Reaches(OneCentCart(Discounted, [CENT]), Lastly(last), end)
    ensures Reaches(OneCentCart(Itemized, []), CouponThen(last), end)
  {
    CentApplied();
    RunFrom(OneCentCart(Itemized, []), Call(ApplyCoupon(1, "C", "C"), SHOP), Lastly(last));
  }

  lemma CouponedCentReaches(last: Command, end: CartValue)
    requires Reaches(OneCentCart(Itemized, []), CouponThen(last), end)
    ensures Reaches(EMPTY_CART, CouponedCent(last), end)
  {
    AddedLine(EMPTY_CART, 1, 1);
    assert EMPTY_CART.lines + [Costing(1, 1)] == OneLine();
    RunFrom(EMPTY_CART, Call(AddLine(1, 1, 1, 1), SHOP), CouponThen(last));
  }

  lemma CouponedCentRuns(last: Command)
    requires Fresh(OneCentCart(Discounted, [CENT]), last)
    ensures Reaches(EMPTY_CART, CouponedCent(last), Step(OneCentCart(Discounted, [CENT]), last, SHOP))
  {
    var end := Step(OneCentCart(Discounted, [CENT]), last, SHOP);
    LastlyReaches(last);
    CouponThenReaches(last, end);
    CouponedCentReaches(last, end);
  }

  /** Removing the last line of a cart keeps its coupon, which then exceeds a gross of zero. */
  lemma EmptiedCartKeepsItsCoupon()
    ensures var calls := CouponedCent(RemoveLine(1));
      AllFresh(EMPTY_CART, calls) && !CouponsFit(Run(EMPTY_CART, calls))
  {
    CouponedCentRuns(RemoveLine(1));
    FitsAfterStep(OneCentCart(Discounted, [CENT]), RemoveLine(1), SHOP);
    OneCentSums();
    assert FindLine(OneLine(), 1) == 0;
    assert OneLine()[..0] + OneLine()[1..] == [];
  }

  const CENT_OFF: Command := ApplyManualDiscount(FixedCart, 1, 0)

  lemma CentOffOneLine()
    ensures ManualOne(OneLine(), ManualDiscount(1, None)) == [Costing(1, 1).(discount := 1)]
  {
    var lines, md := OneLine(), ManualDiscount(1, None);
    var nets := Prices(lines);
    assert nets == [1] && nets[1..] == [] && Sum(nets) == 1;
    CappedSplit1();
    assert ManualShares(lines, md) == [1];
  }

  lemma CentOffLine()
    ensures GrossTotal(ManualPriced(OneLine(), [ManualDiscount(1, None)], SHOP)) == 0
  {
    var md, line := ManualDiscount(1, None), Costing(1, 1).(discount := 1);
    var mds := [md];
    CentOffOneLine();
    assert mds[1..] == [] && ManualAll(OneLine(), mds) == ManualAll([line], []);
    assert WithTax(line, SHOP) == line;
    var out := ManualPriced(OneLine(), mds, SHOP);
    assert out == [line] && out[1..] == [] && Gross(line) == 0;
    assert GrossTotal(out) == Gross(out[0]) + GrossTotal(out[1..]);
  }

  lemma CappedSplit1()
    ensures Splitting.CappedShares([1], Splitting.Quotas([1], 1, 1), 1) == [1]
  {
    var one: seq<nat> := [1];
    assert one[1..] == [];
    assert Splitting.Quotas(one, 1, 1) == [1];
  }

  lemma CentOffChanges()
    ensures var c := OneCentCart(Discounted, [CENT]);
      Change(c, CENT_OFF, SHOP) == Some(c.(manual := [ManualDiscount(1, None)]))
  {
    assert OneLine()[1..] == [] && Subtotal(OneLine()) == 1;
    assert [] + [ManualDiscount(1, None)] == [ManualDiscount(1, None)];
  }

  lemma CentOffWillNotFit()
    ensures !WillFit(OneCentCart(Discounted, [CENT]), CENT_OFF, SHOP)
  {
    CentOffChanges();
    OneCentSums();
    CentOffLine();
  }

  /** A manual discount given after a coupon can leave less than the coupon takes off. */
  lemma ManualDiscountCutsCoupon()
    ensures var calls := CouponedCent(CENT_OFF);
      AllFresh(EMPTY_CART, calls) && !CouponsFit(Run(EMPTY_CART, calls))
  {
    CouponedCentRuns(CENT_OFF);
    CentOffWillNotFit();
    FitsAfterStep(OneCentCart(Discounted, [CENT]), CENT_OFF, SHOP);
  }
}
