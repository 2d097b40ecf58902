/** The fiscal transaction against the order it signs: how its gross and its tenders compare. */
module FiscalLaws {
  import opened Seqs
  import opened Splitting
  import opened Carts
  import opened CartRuns
  import opened Fiscal

  // ---- sums ----

  lemma {:induction false} IntSumAppend(a: seq<int>, b: seq<int>)
    ensures IntSum(a + b) == IntSum(a) + IntSum(b)
  {
    if a == [] {
      assert a + b == b;
    } else {
      IntSumAppend(a[1..], b);
      assert (a + b)[1..] == a[1..] + b;
    }
  }

  lemma {:induction false} NatSum(ints: seq<int>, nats: seq<nat>)
    requires |ints| == |nats| && forall i :: 0 <= i < |ints| ==> ints[i] == nats[i]
    ensures IntSum(ints) == Sum(nats)
  {
    if ints != [] {
      NatSum(ints[1..], nats[1..]);
    }
  }

  /** Taking shares off the nets takes their sum off the totals, and leaves the taxes alone. */
  lemma {:induction false} DiscountedTotals(lines: seq<FiscalLine>, shares: seq<int>)
    requires |shares| == |lines|
    ensures var out := DiscountEach(lines, shares);
            && IntSum(Nets(out)) == IntSum(Nets(lines)) - IntSum(shares)
            && IntSum(Taxes(out)) == IntSum(Taxes(lines))
            && IntSum(Grosses(out)) == IntSum(Nets(out)) + IntSum(Taxes(out))
  {
    if lines != [] {
      var out, rest := DiscountEach(lines, shares), DiscountEach(lines[1..], shares[1..]);
      DiscountedTotals(lines[1..], shares[1..]);
      assert Nets(out)[1..] == Nets(rest) && Nets(lines)[1..] == Nets(lines[1..]);
      assert Taxes(out)[1..] == Taxes(rest) && Taxes(lines)[1..] == Taxes(lines[1..]);
      assert Grosses(out)[1..] == Grosses(rest);
    }
  }

  // ---- nets of taxed lines ----

  function NetCents(l: Line): nat { if l.taxInclusive then Sub(Price(l), l.tax) else Price(l) }

  function AllNetCents(lines: seq<Line>): (out: seq<nat>)
    ensures |out| == |lines| && forall i :: 0 <= i < |lines| ==> out[i] == NetCents(lines[i])
  {
    seq(|lines|, i requires 0 <= i < |lines| => NetCents(lines[i]))
  }

  lemma {:induction false} FiscalTotals(lines: seq<Line>)
    requires TaxFits(lines)
    ensures IntSum(Nets(FiscalLines(lines))) == Sum(AllNetCents(lines))
    ensures IntSum(Taxes(FiscalLines(lines))) == TaxTotal(lines)
    ensures IntSum(Grosses(FiscalLines(lines))) == GrossTotal(lines)
    ensures GrossTotal(lines) == Sum(AllNetCents(lines)) + TaxTotal(lines)
    ensures NetTotal(lines) <= Sum(AllNetCents(lines)) + TaxTotal(lines)
  {
    if lines != [] {
      var f := FiscalLines(lines);
      FiscalTotals(lines[1..]);
      assert f[1..] == FiscalLines(lines[1..]);
      assert Nets(f)[1..] == Nets(f[1..]) && Taxes(f)[1..] == Taxes(f[1..]) && Grosses(f)[1..] == Grosses(f[1..]);
      assert AllNetCents(lines)[1..] == AllNetCents(lines[1..]);
    }
  }

  lemma FiscalShareIsCapped(net: nat, last: bool, d: nat, total: nat, remaining: nat)
    requires total > 0
    ensures FiscalShare(net, last, d, total, remaining)
         == if last then Min(remaining, net) else Min(Min(d * net / total, remaining), net)
  {
    assert d * net >= 0;
  }

  /** On lines with non-negative nets the fiscal split is the capped split. */
  lemma {:induction false} FiscalSharesAreCapped(ints: seq<int>, nets: seq<nat>, d: nat, total: nat, remaining: nat)
    requires total > 0 && |ints| == |nets| && forall i :: 0 <= i < |nets| ==> ints[i] == nets[i]
    ensures var shares := CappedShares(nets, Quotas(nets, d, total), remaining);
            FiscalShares(ints, d, total, remaining) == shares
  {
    if ints != [] {
      var share := FiscalShare(ints[0], |ints| == 1, d, total, remaining);
      FiscalShareIsCapped(nets[0], |nets| == 1, d, total, remaining);
      FiscalSharesAreCapped(ints[1..], nets[1..], d, total, remaining - share);
    }
  }

  // ---- gross against total ----

  /** The coupon cents that the capped split places on lines with these nets. */
  function Taken(nets: seq<nat>, coupons: nat): nat {
    if Sum(nets) == 0 then 0 else Sum(CappedShares(nets, Quotas(nets, coupons, Sum(nets)), coupons))
  }

  /** What `Allocated` does to the lines of a sale, in terms of the capped split of their nets. */
  lemma AllocatedSale(lines: seq<Line>, coupons: nat)
    requires TaxFits(lines)
    ensures var out := Allocated(FiscalLines(lines), coupons);
            var nets := AllNetCents(lines);
            && |out| == |lines|
            && (forall i :: 0 <= i < |out| ==> out[i].net >= 0 && out[i].gross == out[i].net + out[i].tax)
            && IntSum(Nets(out)) == Sum(nets) - Taken(nets, coupons)
            && IntSum(Taxes(out)) == TaxTotal(lines)
            && IntSum(Grosses(out)) == IntSum(Nets(out)) + IntSum(Taxes(out))
  {
    var f, nets := FiscalLines(lines), AllNetCents(lines);
    FiscalTotals(lines);
    if Sum(nets) > 0 {
      var capped := CappedShares(nets, Quotas(nets, coupons, Sum(nets)), coupons);
      CappedSharesFit(nets, Quotas(nets, coupons, Sum(nets)), coupons);
      if coupons > 0 {
        var shares := FiscalShares(Nets(f), coupons, Sum(nets), coupons);
        FiscalSharesAreCapped(Nets(f), nets, coupons, Sum(nets), coupons);
        NatSum(shares, capped);
        DiscountedTotals(f, shares);
      }
    }
  }

  /** A line of the sale is the order's, less its share of the basket coupons. */
  ghost predicate IsSaleLine(l: Line, share: nat, f: FiscalLine) {
    var price := if l.discount < l.lineTotal then l.lineTotal - l.discount else 0;
    && f.lineId == l.lineId && f.tax == l.tax && f.taxInclusive == l.taxInclusive
    && f.discount == l.discount + share
    && f.net == price - (if l.taxInclusive then l.tax else 0) - share
    && f.gross == f.net + l.tax
  }

  lemma DiscountedIsSaleLine(l: Line, share: nat)
    requires !(l.taxInclusive && l.tax > Price(l))
    ensures IsSaleLine(l, share, Fiscal.Discounted(FiscalLineOf(l), share))
  {
  }

  /** What `Allocated` makes of the lines when it is given these shares. */
  lemma SharesAreApplied(lines: seq<Line>, shares: seq<nat>)
    requires TaxFits(lines) && |shares| == |lines|
    ensures var out := DiscountEach(FiscalLines(lines), shares);
      && (forall i :: 0 <= i < |lines| ==> IsSaleLine(lines[i], shares[i], out[i]))
      && IntSum(Nets(out)) == Sum(AllNetCents(lines)) - Sum(shares)
      && IntSum(Taxes(out)) == TaxTotal(lines) && IntSum(Grosses(out)) == IntSum(Nets(out)) + IntSum(Taxes(out))
  {
    FiscalTotals(lines);
    NatSum(shares, shares);
    DiscountedTotals(FiscalLines(lines), shares);
    forall i | 0 <= i < |lines| ensures IsSaleLine(lines[i], shares[i], DiscountEach(FiscalLines(lines), shares)[i]) {
      DiscountedIsSaleLine(lines[i], shares[i]);
    }
  }

  /** The coupons are split over the net of the lines, and the totals are those of the lines. */
  lemma SaleLinesAre(o: Order) returns (shares: seq<nat>)
    requires TaxFits(o.lines)
    ensures var t := SaleOf(o);
      && IsCappedSplit(AllNetCents(o.lines), CouponTotal(o.coupons), shares)
      && |t.lines| == |shares| == |o.lines|
      && (forall i :: 0 <= i < |o.lines| ==> IsSaleLine(o.lines[i], shares[i], t.lines[i]))
      && t.net == Sum(AllNetCents(o.lines)) - Sum(shares) && t.tax == TaxTotal(o.lines) && t.gross == t.net + t.tax
  {
    var nets, coupons := AllNetCents(o.lines), CouponTotal(o.coupons);
    shares := SharesGiven(o.lines, coupons);
    SharesAreApplied(o.lines, shares);
  }

  lemma SharesGiven(lines: seq<Line>, coupons: nat) returns (shares: seq<nat>)
    requires TaxFits(lines)
    ensures |shares| == |lines| && IsCappedSplit(AllNetCents(lines), coupons, shares)
    ensures Allocated(FiscalLines(lines), coupons) == DiscountEach(FiscalLines(lines), shares)
  {
    var f, nets := FiscalLines(lines), AllNetCents(lines);
    FiscalTotals(lines);
    SumZero(nets);
    if coupons == 0 || Sum(nets) == 0 {
      shares := seq(|nets|, _ => 0);
      NoCentsNoShares(nets, coupons, shares);
      assert DiscountEach(f, shares) == f;
    } else {
      shares := CappedShares(nets, Quotas(nets, coupons, Sum(nets)), coupons);
      CappedSharesAre(nets, coupons);
      FiscalSharesAreCapped(Nets(f), nets, coupons, Sum(nets), coupons);
    }
  }

  /**
    The fiscal gross never falls below the order total. With T the net of all lines, the gap
    is at most the slack of the split when the coupons are at most T; beyond T the coupons
    can only be taken off the net, and the gap is the rest of them, at most the tax.
   */
  lemma FiscalGrossCoversTotal(c: CartValue)
    requires TaxFits(c.lines)
    ensures var o := OrderOf(c);
            var t := SaleOf(o);
            var net, coupons := Sum(AllNetCents(c.lines)), CouponTotal(c.coupons);
      && |t.lines| == |c.lines|
      && (forall i :: 0 <= i < |t.lines| ==> t.lines[i].net >= 0 && t.lines[i].gross == t.lines[i].net + t.lines[i].tax)
      && t.gross == t.net + t.tax && t.tax == o.tax
      && (coupons <= net ==> 0 <= t.gross - o.total <= Slack(|c.lines|))
      && (coupons > net ==> t.gross - o.total == Min(coupons - net, o.tax))
  {
    var nets, coupons := AllNetCents(c.lines), CouponTotal(c.coupons);
    FiscalTotals(c.lines);
    AllocatedSale(c.lines, coupons);
    if Sum(nets) > 0 {
      CappedSplit(nets, coupons);
    }
  }

  /**
    The cents by which the gross exceeds the total, from the cart alone: coupons beyond the
    net of the lines, as far as there is tax; or else what the quotas of the other lines leave
    to the last line beyond its net.
   */
  function FiscalGap(lines: seq<Line>, coupons: nat): nat {
    var nets := AllNetCents(lines);
    if coupons > Sum(nets) then Min(coupons - Sum(nets), TaxTotal(lines))
    else if nets == [] || Sum(nets) == 0 then 0
    else
      var n := |nets| - 1;
      Sub(Sub(coupons, Sum(Quotas(nets, coupons, Sum(nets))[..n])), nets[n])
  }

  lemma SplitLeaves(nets: seq<nat>, coupons: nat)
    requires 0 < Sum(nets) && coupons <= Sum(nets)
    ensures var quotas, n := Quotas(nets, coupons, Sum(nets)), |nets| - 1;
      Sum(CappedShares(nets, quotas, coupons)) + Sub(Sub(coupons, Sum(quotas[..n])), nets[n]) == coupons
  {
    QuotasFit(nets, coupons, Sum(nets));
    QuotasFitTotal(nets, coupons);
    GivenSum(nets, Quotas(nets, coupons, Sum(nets)), coupons);
  }

  /** All of the net is taken when the coupons cover it, and otherwise all but the gap of the coupons. */
  lemma TakenIs(lines: seq<Line>, coupons: nat)
    ensures var net := Sum(AllNetCents(lines));
      Taken(AllNetCents(lines), coupons) == if coupons > net then net else coupons - FiscalGap(lines, coupons)
  {
    var nets := AllNetCents(lines);
    if Sum(nets) > 0 {
      if coupons > Sum(nets) {
        CappedSplit(nets, coupons);
      } else {
        SplitLeaves(nets, coupons);
      }
    }
  }

  lemma GrossOfSale(c: CartValue)
    requires TaxFits(c.lines)
    ensures var nets := AllNetCents(c.lines);
      SaleOf(OrderOf(c)).gross == Sum(nets) - Taken(nets, CouponTotal(c.coupons)) + TaxTotal(c.lines)
  {
    FiscalTotals(c.lines);
    AllocatedSale(c.lines, CouponTotal(c.coupons));
  }

  lemma FiscalGrossIs(c: CartValue)
    requires TaxFits(c.lines)
    ensures SaleOf(OrderOf(c)).gross == Total(c) + FiscalGap(c.lines, CouponTotal(c.coupons))
  {
    FiscalTotals(c.lines);
    GrossOfSale(c);
    TakenIs(c.lines, CouponTotal(c.coupons));
  }

  /** As long as the coupons do not exceed the prices of the lines, all that exceeds their net shows in the gross. */
  lemma FiscalGapOfPricedCart(c: CartValue)
    requires TaxFits(c.lines) && CouponTotal(c.coupons) <= NetTotal(c.lines)
    requires CouponTotal(c.coupons) > Sum(AllNetCents(c.lines))
    ensures SaleOf(OrderOf(c)).gross - OrderOf(c).total == CouponTotal(c.coupons) - Sum(AllNetCents(c.lines))
  {
    FiscalTotals(c.lines);
    FiscalGrossCoversTotal(c);
  }

  // ---- tenders against gross ----

  lemma {:induction false} TenderedAmounts(payments: seq<Payment>)
    ensures IntSum(Amounts(Tenders(payments))) == Tendered(payments)
  {
    if payments != [] {
      TenderedAmounts(payments[1..]);
      assert Amounts(Tenders(payments))[1..] == Amounts(Tenders(payments[1..]));
    }
  }

  lemma {:induction false} IntSumUpdate(s: seq<int>, at: nat, x: int)
    requires at < |s|
    ensures IntSum(s[at := x]) == IntSum(s) - s[at] + x
  {
    if at > 0 {
      IntSumUpdate(s[1..], at - 1, x);
      assert s[at := x][1..] == s[1..][at - 1 := x];
    } else {
      assert s[at := x][1..] == s[1..];
    }
  }

  lemma TakeFromOne(tenders: seq<Tender>, at: nat, extra: int)
    requires at < |tenders|
    ensures var out := tenders[at := tenders[at].(amount := tenders[at].amount - extra)];
            IntSum(Amounts(out)) == IntSum(Amounts(tenders)) - extra
  {
    var out := tenders[at := tenders[at].(amount := tenders[at].amount - extra)];
    IntSumUpdate(Amounts(tenders), at, tenders[at].amount - extra);
    assert Amounts(out) == Amounts(tenders)[at := tenders[at].amount - extra];
  }

  /** Some payment can give back `extra`. */
  predicate CanBear(payments: seq<Payment>, extra: int) {
    exists i :: 0 <= i < |payments| && payments[i].amount >= extra
  }

  /** The fitted tenders add up to the gross when they did before, or when one of them can bear the excess. */
  lemma FittedSum(payments: seq<Payment>, gross: int)
    ensures var paid := Tendered(payments);
      IntSum(Amounts(Fitted(Tenders(payments), gross))) == gross <==>
        paid == gross || (0 < gross < paid && CanBear(payments, paid - gross))
  {
    var tenders, extra := Tenders(payments), Tendered(payments) - gross;
    TenderedAmounts(payments);
    if gross > 0 && extra > 0 {
      var at := LastAtLeast(tenders, extra);
      if at < |tenders| {
        assert payments[at].amount >= extra;
        TakeFromOne(tenders, at, extra);
      }
    }
  }

  /** The gross of the sale, told from the cart. */
  function GrossToSell(c: CartValue): nat { Total(c) + FiscalGap(c.lines, CouponTotal(c.coupons)) }

  /**
    Whether the fiscal tenders of a cart will add up to its gross, told from the cart: exactly
    the gross was tendered, or more than a positive gross and one payment bears the excess.
   */
  predicate TendersWillFit(c: CartValue) {
    var gross, paid := GrossToSell(c), Tendered(c.payments);
    paid == gross || (0 < gross < paid && CanBear(c.payments, paid - gross))
  }

  /** Payment `at` is the last one that can give back `extra`. */
  ghost predicate LastToBear(payments: seq<Payment>, extra: int, at: int) {
    && 0 <= at < |payments| && payments[at].amount >= extra
    && (forall j :: at < j < |payments| ==> payments[j].amount < extra)
  }

  /**
    Every payment is signed as a tender with its own id and tip, for its own amount; only when
    more was paid than a positive gross does the last payment that can bear it give the excess back.
   */
  lemma SaleTendersAre(o: Order, j: nat)
    requires j < |o.payments|
    ensures var t := SaleOf(o);
      var p, extra := o.payments[j], Tendered(o.payments) - t.gross;
      var back := if t.gross > 0 && extra > 0 && LastToBear(o.payments, extra, j) then extra else 0;
      |t.tenders| == |o.payments| && t.tenders[j] == Tender(p.tenderId, p.amount - back, p.tip)
  {
    TenderedAmounts(o.payments);
    var extra := Tendered(o.payments) - SaleOf(o).gross;
    if SaleOf(o).gross > 0 && extra > 0 {
      var at := LastAtLeast(Tenders(o.payments), extra);
      assert at < |o.payments| ==> LastToBear(o.payments, extra, at);
      assert forall i :: 0 <= i < |o.payments| ==> Tenders(o.payments)[i].amount == o.payments[i].amount;
      if LastToBear(o.payments, extra, j) {
        assert at == j;
      }
    }
  }

  /** For every taxed cart: its fiscal tenders add up to the fiscal gross exactly when they will fit. */
  lemma TendersFitGross(c: CartValue)
    requires TaxFits(c.lines)
    ensures var t := SaleOf(OrderOf(c));
      && t.gross == GrossToSell(c)
      && (IntSum(Amounts(t.tenders)) == t.gross <==> TendersWillFit(c))
  {
    FiscalGrossIs(c);
    FittedSum(c.payments, GrossToSell(c));
  }

  /** Fitting changes at most the last tender when all before it fall short of `total`, which the gross reaches. */
  lemma FittedLast(payments: seq<Payment>, total: nat, gross: int)
    requires payments != [] && (|payments| == 1 || Tendered(payments[..|payments| - 1]) < total)
    requires 0 < gross && total <= gross
    ensures var out := Fitted(Tenders(payments), gross);
            var n := |payments| - 1;
      && (gross < Tendered(payments) ==> payments[n].amount >= Tendered(payments) - gross)
      && |out| == n + 1
      && out[..n] == Tenders(payments)[..n]
      && (gross >= Tendered(payments) ==> out == Tenders(payments))
  {
    var tenders, n := Tenders(payments), |payments| - 1;
    TenderedAmounts(payments);
    if gross < Tendered(payments) {
      var extra := Tendered(payments) - gross;
      assert payments == payments[..n] + [payments[n]];
      TenderedAppend(payments[..n], payments[n]);
      if n == 0 {
        assert payments[..n] == [];
      }
      assert LastAtLeast(tenders, extra) == n;
    }
  }

  /**
    When the last tender is the one that paid the cart, the fiscal tenders add up exactly when
    the gross is positive and was tendered, or is zero and nothing was; and getting there
    changes at most the last tender.
   */
  lemma TendersOfCartPaidByLast(c: CartValue)
    requires TaxFits(c.lines) && PaidByLast(c)
    ensures var t := SaleOf(OrderOf(c));
            var n, gross := |c.payments| - 1, GrossToSell(c);
      && (IntSum(Amounts(t.tenders)) == t.gross <==>
            if gross > 0 then gross <= Tendered(c.payments) else Tendered(c.payments) == 0)
      && |t.tenders| == n + 1
      && t.tenders[..n] == Tenders(c.payments)[..n]
      && (gross == 0 || gross >= Tendered(c.payments) ==> t.tenders == Tenders(c.payments))
  {
    TendersFitGross(c);
    var gross := GrossToSell(c);
    if gross > 0 {
      FittedLast(c.payments, Total(c), gross);
    }
  }

  /**
    Any run of cart commands from a new cart, tenders after payment included: the sale it signs
    has a gross of at least the order total, and its tenders add up to that gross exactly when
    the gross was tendered to the cent, or more than a positive gross was and one payment alone
    bears the excess.
   */
  lemma SaleOfAnyRun(calls: seq<Call>)
    requires AllFresh(EMPTY_CART, calls)
    ensures var c := Run(EMPTY_CART, calls);
            var t := SaleOf(OrderOf(c));
      && OrderOf(c).total <= t.gross
      && (c.state.Paid? || c.state.Finalized? ==> OrderOf(c).total <= Tendered(c.payments))
      && (IntSum(Amounts(t.tenders)) == t.gross <==> TendersWillFit(c))
  {
    ReachableInv(calls);
    TendersFitGross(Run(EMPTY_CART, calls));
  }

  /** In a run that adds no tender once the cart is paid, a positive gross that was tendered is enough. */
  lemma SaleOfRunThatStopsWhenPaid(calls: seq<Call>)
    requires AllFresh(EMPTY_CART, calls) && StopsWhenPaid(EMPTY_CART, calls)
    requires Run(EMPTY_CART, calls).state.Paid? || Run(EMPTY_CART, calls).state.Finalized?
    ensures var c := Run(EMPTY_CART, calls);
            var t := SaleOf(OrderOf(c));
      IntSum(Amounts(t.tenders)) == t.gross <==>
        if t.gross > 0 then t.gross <= Tendered(c.payments) else Tendered(c.payments) == 0
  {
    ReachableInv(calls);
    PaidByLastRun(EMPTY_CART, calls);
    TendersFitGross(Run(EMPTY_CART, calls));
    TendersOfCartPaidByLast(Run(EMPTY_CART, calls));
  }
}
