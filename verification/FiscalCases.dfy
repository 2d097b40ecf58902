/** Two runs of cart commands whose fiscal tenders do not add up to the fiscal gross. */
module FiscalCases {
  import opened Seqs
  import opened Pricing
  import opened Splitting
  import opened Promotions
  import opened Carts
  import opened Pipeline
  import opened CartRuns
  import opened Fiscal
  import opened FiscalLaws

  // ---- pricing where no promotion and no tax applies ----

  ghost predicate Plain(lines: seq<Line>) {
    forall i :: 0 <= i < |lines| ==> lines[i].discount == 0 && lines[i].tax == 0 && !lines[i].taxInclusive
  }

  lemma {:induction false} NothingTakenYet(lines: seq<BasketLine>, id: Uuid)
    ensures Get(InitialTally(lines).discounts, id) == 0
  {
    if lines != [] {
      NothingTakenYet(lines[..|lines| - 1], id);
    }
  }

  lemma PlainPricing(c: CartValue, env: Env)
    requires env.rules == [] && PromosToApply(env.promos, c.promoIds) == []
    requires Plain(c.lines) && c.manual == [] && c.promoIds == []
    ensures var coupons := PricedCoupons(c.coupons, env, NetTotal(c.lines));
      PricedCart(c, env)
        == c.(state := if AnyCoupon(coupons) then Discounted else StateOfLines(c.lines), coupons := coupons)
  {
    var outcome := PromoOutcome(c, env);
    assert outcome == Outcome(InitialTally(BasketLines(c.lines)), []);
    var priced := PromoPriced(c.lines, outcome.tally.discounts, env);
    forall i | 0 <= i < |c.lines| ensures priced[i] == c.lines[i] {
      NothingTakenYet(BasketLines(c.lines), c.lines[i].lineId);
      assert TaxForLine(Price(c.lines[i]), CategoryOf(env.categories, c.lines[i].itemId), []) == LineTax(0, false);
    }
    assert priced == c.lines;
    assert !AnyDiscount(c.lines);
  }

  /** One command more in front of a run. */
  lemma RunFrom(c: CartValue, call: Call, rest: seq<Call>)
    requires Fresh(c, call.cmd) && (c.state.Paid? ==> !call.cmd.AddTender?)
    requires var c' := Step(c, call.cmd, call.env);
             AllFresh(c', rest) && StopsWhenPaid(c', rest)
    ensures AllFresh(c, [call] + rest) && StopsWhenPaid(c, [call] + rest)
    ensures Run(c, [call] + rest) == Run(Step(c, call.cmd, call.env), rest)
  {
    assert ([call] + rest)[1..] == rest;
  }

  // ---- a coupon cent that finds no line ----

  const ONE_CENT_OFF: Promotion := Promotion(1, Some("C"), FixedAmountOff(1), 0, 0, None, [], [])

  const SHOP: Env := Env([], [ONE_CENT_OFF], map[], 0)

  lemma OnlyByCoupon()
    ensures PromosToApply(SHOP.promos, []) == []
    ensures FindCode(SHOP.promos, "C") == Some(ONE_CENT_OFF) && Live(ONE_CENT_OFF, SHOP.now)
  {
    assert SHOP.promos[1..] == [];
    assert Filter(SHOP.promos, IsAutomatic()) == [];
    assert Filter(SHOP.promos, IsRequested([], Ids([]))) == [];
  }

  function Costing(id: Uuid, cents: nat): Line { NewLine(id, 1, 1, cents) }

  function ThreeLines(): seq<Line> { [Costing(1, 1), Costing(2, 1), Costing(3, 0)] }

  /** Lines of 1, 1 and 0 cents, a coupon of one cent, and the one cent that is left paid. */
  function ShortCart(): CartValue {
    CartValue(Paid, ThreeLines(), [], [Coupon(1, "C", 1)], [], [Payment(1, 1, 0)])
  }

  function PayOne(): seq<Call> { [Call(EnterTendering, SHOP)] + ([Call(AddTender(Payment(1, 1, 0)), SHOP)] + []) }

  function CouponFirst(): seq<Call> { [Call(ApplyCoupon(1, "C", "C"), SHOP)] + PayOne() }

  function Adding(id: Uuid, cents: nat, rest: seq<Call>): seq<Call> { [Call(AddLine(id, 1, 1, cents), SHOP)] + rest }

  function ShortRun(): seq<Call> { Adding(1, 1, Adding(2, 1, Adding(3, 0, CouponFirst()))) }

  ghost predicate EndsShort(c: CartValue, calls: seq<Call>) {
    AllFresh(c, calls) && StopsWhenPaid(c, calls) && Run(c, calls) == ShortCart()
  }

  lemma AddedLine(c: CartValue, id: Uuid, cents: nat)
    requires c == CartValue(c.state, c.lines, [], [], [], []) && CanEdit(c.state) && Plain(c.lines)
    ensures Step(c, AddLine(id, 1, 1, cents), SHOP) == c.(state := Itemized, lines := c.lines + [Costing(id, cents)])
  {
    OnlyByCoupon();
    PlainPricing(c.(state := Itemized, lines := c.lines + [Costing(id, cents)]), SHOP);
  }

  lemma ThreeLinesSums()
    ensures GrossTotal(ThreeLines()) == 2 && NetTotal(ThreeLines()) == 2
    ensures TaxTotal(ThreeLines()) == 0 && AllNetCents(ThreeLines()) == [1, 1, 0]
  {
    SumOfThree(Costing(1, 1), Costing(2, 1), Costing(3, 0), (l: Line) => l.tax);
    SumOfThree(Costing(1, 1), Costing(2, 1), Costing(3, 0), (l: Line) => Gross(l));
    SumOfThree(Costing(1, 1), Costing(2, 1), Costing(3, 0), (l: Line) => Price(l));
  }

  lemma OneCentCoupon()
    ensures PricedCoupons([Coupon(1, "C", 0)], SHOP, 2) == [Coupon(1, "C", 1)]
    ensures AnyCoupon([Coupon(1, "C", 1)])
  {
    OnlyByCoupon();
    var coupon := Coupon(1, "C", 0);
    assert PricedCoupon(coupon, SHOP, 2) == Coupon(1, "C", 1);
    assert [coupon][1..] == [];
    assert Coupon(1, "C", 1) in [Coupon(1, "C", 1)];
  }

  lemma CouponAdded(c: CartValue)
    requires c.coupons == []
    ensures Change(c, ApplyCoupon(1, "C", "C"), SHOP) == Some(c.(coupons := [Coupon(1, "C", 0)]))
  {
    assert [] + [Coupon(1, "C", 0)] == [Coupon(1, "C", 0)];
  }

  lemma AskedForCoupon(c: CartValue)
    requires CanEdit(c.state) && c.coupons == []
    ensures Step(c, ApplyCoupon(1, "C", "C"), SHOP) == PricedCart(c.(coupons := [Coupon(1, "C", 0)]), SHOP)
  {
    CouponAdded(c);
  }

  lemma CouponedCart(c: CartValue)
    requires c == CartValue(Itemized, ThreeLines(), [], [], [], [])
    ensures Step(c, ApplyCoupon(1, "C", "C"), SHOP) == c.(state := Discounted, coupons := [Coupon(1, "C", 1)])
  {
    AskedForCoupon(c);
    OnlyByCoupon();
    ThreeLinesSums();
    OneCentCoupon();
    PlainPricing(c.(coupons := [Coupon(1, "C", 0)]), SHOP);
  }

  lemma ShortTotals()
    ensures CouponTotal([Coupon(1, "C", 1)]) == 1 && Tendered([Payment(1, 1, 0)]) == 1
    ensures Total(ShortCart()) == 1
  {
    ThreeLinesSums();
    assert [Coupon(1, "C", 1)][1..] == [] && [Payment(1, 1, 0)][1..] == [];
  }

  lemma PayingEnds(c: CartValue)
    requires c == ShortCart().(state := Discounted, payments := [])
    ensures EndsShort(c, PayOne())
  {
    ShortTotals();
    var tendering := c.(state := Tendering);
    RunFrom(tendering, Call(AddTender(Payment(1, 1, 0)), SHOP), []);
    RunFrom(c, Call(EnterTendering, SHOP), [Call(AddTender(Payment(1, 1, 0)), SHOP)] + []);
  }

  lemma CouponingEnds(c: CartValue)
    requires c == CartValue(Itemized, ThreeLines(), [], [], [], [])
    ensures EndsShort(c, CouponFirst())
  {
    CouponedCart(c);
    PayingEnds(c.(state := Discounted, coupons := [Coupon(1, "C", 1)]));
    RunFrom(c, Call(ApplyCoupon(1, "C", "C"), SHOP), PayOne());
  }

  function Holding(lines: seq<Line>): CartValue { CartValue(if lines == [] then Open else Itemized, lines, [], [], [], []) }

  lemma AddingEnds(lines: seq<Line>, id: Uuid, cents: nat, more: seq<Line>, rest: seq<Call>)
    requires Plain(lines) && more == lines + [Costing(id, cents)]
    requires forall i :: 0 <= i < |lines| ==> lines[i].lineId != id
    requires EndsShort(Holding(more), rest)
    ensures EndsShort(Holding(lines), Adding(id, cents, rest))
  {
    AddedLine(Holding(lines), id, cents);
    RunFrom(Holding(lines), Call(AddLine(id, 1, 1, cents), SHOP), rest);
  }

  function OneLine(): seq<Line> { [Costing(1, 1)] }

  function TwoLines(): seq<Line> { [Costing(1, 1), Costing(2, 1)] }

  lemma TwoThenThree()
    ensures Plain(TwoLines()) && TwoLines() + [Costing(3, 0)] == ThreeLines()
    ensures forall i :: 0 <= i < |TwoLines()| ==> TwoLines()[i].lineId != 3
  {
  }

  lemma OneThenTwo()
    ensures Plain(OneLine()) && OneLine() + [Costing(2, 1)] == TwoLines()
    ensures forall i :: 0 <= i < |OneLine()| ==> OneLine()[i].lineId != 2
  {
  }

  lemma ThirdLineEnds()
    ensures EndsShort(Holding(TwoLines()), Adding(3, 0, CouponFirst()))
  {
    TwoThenThree();
    CouponingEnds(Holding(ThreeLines()));
    AddingEnds(TwoLines(), 3, 0, ThreeLines(), CouponFirst());
  }

  lemma SecondLineEnds()
    ensures EndsShort(Holding(OneLine()), Adding(2, 1, Adding(3, 0, CouponFirst())))
  {
    ThirdLineEnds();
    OneThenTwo();
    AddingEnds(OneLine(), 2, 1, TwoLines(), Adding(3, 0, CouponFirst()));
  }

  lemma ShortRunEnds()
    ensures EndsShort(EMPTY_CART, ShortRun())
  {
    SecondLineEnds();
    AddingEnds([], 1, 1, OneLine(), Adding(2, 1, Adding(3, 0, CouponFirst())));
  }

  /** One cent over lines of 1, 1 and 0 cents: no line gets it. */
  lemma CentWithoutLine()
    ensures Sum([1, 1, 0]) == 2 && Quotas([1, 1, 0], 1, 2) == [0, 0, 0] && Sum([0, 0]) == 0
  {
    var nets: seq<nat> := [1, 1, 0];
    assert nets[1..] == [1, 0] && nets[1..][1..] == [0] && nets[1..][1..][1..] == [];
    assert Sum([0]) == 0 && Sum([1, 0]) == 1 && Sum([0, 0]) == 0;
    assert Quotas([0], 1, 2) == [0] && Quotas([1, 0], 1, 2) == [0, 0];
  }

  lemma ShortGap()
    ensures FiscalGap(ThreeLines(), 1) == 1
  {
    ThreeLinesSums();
    CentWithoutLine();
    assert Quotas([1, 1, 0], 1, 2)[..2] == [0, 0];
  }

  lemma PlainFits(lines: seq<Line>)
    requires Plain(lines)
    ensures TaxFits(lines)
  {
  }

  lemma GrossOf(c: CartValue, total: nat, coupons: nat, gap: nat)
    requires TaxFits(c.lines) && Total(c) == total && CouponTotal(c.coupons) == coupons && FiscalGap(c.lines, coupons) == gap
    ensures SaleOf(OrderOf(c)).gross == total + gap
  {
    FiscalGrossIs(c);
  }

  lemma ShortGross()
    ensures SaleOf(OrderOf(ShortCart())).gross == 2
  {
    ShortTotals();
    ShortGap();
    PlainFits(ThreeLines());
    GrossOf(ShortCart(), 1, 1, 1);
  }

  /** The end of a run whose one tendered cent does not reach the gross of two: the coupon's cent finds no line. */
  lemma TendersCanFallShort()
    ensures AllFresh(EMPTY_CART, ShortRun()) && StopsWhenPaid(EMPTY_CART, ShortRun())
    ensures var c := Run(EMPTY_CART, ShortRun());
            var t := SaleOf(OrderOf(c));
      c.state.Paid? && OrderOf(c).total == 1 && t.gross == 2 && IntSum(Amounts(t.tenders)) == 1
  {
    ShortRunEnds();
    ShortTotals();
    ShortGross();
    TenderedAmounts(ShortCart().payments);
  }

  // ---- a tender on a free cart ----

  function FreeLine(): Line { Costing(1, 0) }

  function FreeRun(cents: nat): seq<Call> {
    Adding(1, 0, [Call(EnterTendering, SHOP)] + ([Call(AddTender(Payment(1, cents, 0)), SHOP)] + []))
  }

  function FreeCart(cents: nat): CartValue { CartValue(Paid, [FreeLine()], [], [], [], [Payment(1, cents, 0)]) }

  lemma FreeTotals(cents: nat)
    ensures Total(FreeCart(cents)) == 0 && Tendered(FreeCart(cents).payments) == cents
    ensures FiscalGap(FreeCart(cents).lines, 0) == 0 && TaxTotal(FreeCart(cents).lines) == 0
  {
    var lines, payment := FreeCart(cents).lines, Payment(1, cents, 0);
    assert lines[1..] == [];
    TenderedAppend([], payment);
    assert [] + [payment] == FreeCart(cents).payments;
    assert AllNetCents(lines) == [0] && Sum([0]) == 0;
  }

  lemma FreeRunEnds(cents: nat)
    ensures AllFresh(EMPTY_CART, FreeRun(cents)) && StopsWhenPaid(EMPTY_CART, FreeRun(cents))
    ensures Run(EMPTY_CART, FreeRun(cents)) == FreeCart(cents)
  {
    FreeTotals(cents);
    var one := CartValue(Itemized, [FreeLine()], [], [], [], []);
    var tender := Call(AddTender(Payment(1, cents, 0)), SHOP);
    AddedLine(EMPTY_CART, 1, 0);
    assert EMPTY_CART.lines + [FreeLine()] == one.lines;
    assert one.payments + [tender.cmd.payment] == FreeCart(cents).payments;
    RunFrom(one.(state := Tendering), tender, []);
    RunFrom(one, Call(EnterTendering, SHOP), [tender] + []);
    RunFrom(EMPTY_CART, Call(AddLine(1, 1, 1, 0), SHOP), [Call(EnterTendering, SHOP)] + ([tender] + []));
  }

  /** A cart that costs nothing keeps its whole tender in the sale: the fit is skipped for a gross of zero. */
  lemma FreeCartKeepsItsTender(cents: nat)
    ensures AllFresh(EMPTY_CART, FreeRun(cents)) && StopsWhenPaid(EMPTY_CART, FreeRun(cents))
    ensures var c := Run(EMPTY_CART, FreeRun(cents));
            var t := SaleOf(OrderOf(c));
      c.state.Paid? && t.gross == 0 && IntSum(Amounts(t.tenders)) == cents
  {
    FreeRunEnds(cents);
    FreeTotals(cents);
    PlainFits(FreeCart(cents).lines);
    GrossOf(FreeCart(cents), 0, 0, 0);
    TenderedAmounts(FreeCart(cents).payments);
  }

  // ---- tenders on a paid cart ----

  const TEN: Payment := Payment(1, 10, 0)

  function PaidThrice(): seq<Call> {
    [Call(AddTender(TEN), SHOP)] + ([Call(AddTender(TEN), SHOP)] + ([Call(AddTender(TEN), SHOP)] + []))
  }

  function OverpaidRun(): seq<Call> { Adding(1, 10, [Call(EnterTendering, SHOP)] + PaidThrice()) }

  function TenCart(state: CartState, payments: seq<Payment>): CartValue {
    CartValue(state, [Costing(1, 10)], [], [], [], payments)
  }

  lemma TenTotals(state: CartState)
    ensures Total(TenCart(state, [])) == 10 && FiscalGap(TenCart(state, []).lines, 0) == 0
    ensures Tendered([]) == 0 && Tendered([TEN]) == 10 && Tendered([TEN, TEN]) == 20 && Tendered([TEN, TEN, TEN]) == 30
  {
    var lines := TenCart(state, []).lines;
    assert lines[1..] == [] && AllNetCents(lines) == [10];
    var net: seq<nat> := [10];
    assert net[1..] == [] && Sum(net) == 10;
    assert [] + [TEN] == [TEN] && [TEN] + [TEN] == [TEN, TEN] && [TEN, TEN] + [TEN] == [TEN, TEN, TEN];
    TenderedAppend([], TEN);
    TenderedAppend([TEN], TEN);
    TenderedAppend([TEN, TEN], TEN);
  }

  /** A tender of ten on the cart of ten leaves it paid, however much was tendered before. */
  lemma TenTendered(state: CartState, payments: seq<Payment>, more: seq<Payment>)
    requires (state.Tendering? || state.Paid?) && more == payments + [TEN]
    ensures Step(TenCart(state, payments), AddTender(TEN), SHOP) == TenCart(Paid, more)
  {
    TenTotals(state);
    TenderedAppend(payments, TEN);
    assert Total(TenCart(state, more)) == Total(TenCart(state, []));
  }

  lemma TenRuns(state: CartState, payments: seq<Payment>, more: seq<Payment>, rest: seq<Call>)
    requires (state.Tendering? || state.Paid?) && more == payments + [TEN] && AllFresh(TenCart(Paid, more), rest)
    ensures AllFresh(TenCart(state, payments), [Call(AddTender(TEN), SHOP)] + rest)
    ensures Run(TenCart(state, payments), [Call(AddTender(TEN), SHOP)] + rest) == Run(TenCart(Paid, more), rest)
  {
    TenTendered(state, payments, more);
    assert ([Call(AddTender(TEN), SHOP)] + rest)[1..] == rest;
  }

  lemma PaidThriceEnds()
    ensures AllFresh(TenCart(Tendering, []), PaidThrice())
    ensures Run(TenCart(Tendering, []), PaidThrice()) == TenCart(Paid, [TEN, TEN, TEN])
  {
    var last := [Call(AddTender(TEN), SHOP)] + [];
    TenRuns(Paid, [TEN, TEN], [TEN, TEN, TEN], []);
    TenRuns(Paid, [TEN], [TEN, TEN], last);
    TenRuns(Tendering, [], [TEN], [Call(AddTender(TEN), SHOP)] + last);
  }

  lemma OverpaidRunEnds()
    ensures AllFresh(EMPTY_CART, OverpaidRun()) && Run(EMPTY_CART, OverpaidRun()) == TenCart(Paid, [TEN, TEN, TEN])
  {
    PaidThriceEnds();
    AddedLine(EMPTY_CART, 1, 10);
    assert EMPTY_CART.lines + [Costing(1, 10)] == [Costing(1, 10)];
    var tendering := [Call(EnterTendering, SHOP)] + PaidThrice();
    assert tendering[1..] == PaidThrice() && OverpaidRun()[1..] == tendering;
    assert Step(TenCart(Itemized, []), EnterTendering, SHOP) == TenCart(Tendering, []);
  }

  lemma OverpaidTotals()
    ensures var c := TenCart(Paid, [TEN, TEN, TEN]);
      TaxFits(c.lines) && GrossToSell(c) == 10 && Tendered(c.payments) == 30 && !TendersWillFit(c)
  {
    var c := TenCart(Paid, [TEN, TEN, TEN]);
    TenTotals(Paid);
    assert Total(c) == Total(TenCart(Paid, []));
    PlainFits(c.lines);
    assert !CanBear(c.payments, 20);
  }

  /** Three tenders of ten on a cart of ten, the last two on the paid cart: none of them alone can bear the excess of twenty. */
  lemma OverpaidCartKeepsItsTenders()
    ensures AllFresh(EMPTY_CART, OverpaidRun())
    ensures var c := Run(EMPTY_CART, OverpaidRun());
            var t := SaleOf(OrderOf(c));
      c.state.Paid? && t.gross == 10 && Tendered(c.payments) == 30 && IntSum(Amounts(t.tenders)) != t.gross
  {
    OverpaidRunEnds();
    OverpaidTotals();
    TendersFitGross(TenCart(Paid, [TEN, TEN, TEN]));
  }
}
