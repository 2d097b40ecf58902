/** The cart aggregate, its state machine and its totals. */
module Carts {
  import opened Seqs
  import opened Pricing
  import opened Promotions

  datatype Line = Line(
    lineId: Uuid, itemId: Uuid, quantity: U32, unitPrice: nat,
    lineTotal: nat, discount: nat, tax: nat, taxInclusive: bool)

  datatype CartState = Open | Itemized | Discounted | Tendering | Paid | Finalized | Voided

  datatype Coupon = Coupon(couponId: Uuid, code: string, discount: nat)

  /** A stored manual discount, on one line or on the whole cart. */
  datatype ManualDiscount = ManualDiscount(amount: nat, lineId: Option<Uuid>)

  datatype Payment = Payment(tenderId: Uuid, amount: nat, tip: nat)

  datatype PriceResult = PriceResult(
    lineId: Uuid, unitPrice: nat, lineTotal: nat, discount: nat, tax: nat, taxInclusive: bool)

  datatype CartError = InvalidTransition | LineNotFound | PaymentExceedsTotal

  datatype Result<T> = Ok(value: T) | Err(error: CartError)

  /** Everything a cart stores that money depends on. */
  datatype CartValue = CartValue(
    state: CartState, lines: seq<Line>, promoIds: seq<Uuid>, coupons: seq<Coupon>,
    manual: seq<ManualDiscount>, payments: seq<Payment>)

  datatype Order = Order(
    lines: seq<Line>, subtotal: nat, discount: nat, tax: nat, total: nat,
    payments: seq<Payment>, coupons: seq<Coupon>)

  function ForPromos(l: Line): BasketLine { BasketLine(l.lineId, l.itemId, l.quantity, l.lineTotal) }

  function BasketLines(lines: seq<Line>): (out: seq<BasketLine>)
    ensures |out| == |lines| && forall i :: 0 <= i < |lines| ==> out[i] == ForPromos(lines[i])
  {
    seq(|lines|, i requires 0 <= i < |lines| => ForPromos(lines[i]))
  }

  ghost predicate DistinctLines(lines: seq<Line>) {
    forall i, j :: 0 <= i < j < |lines| ==> lines[i].lineId != lines[j].lineId
  }

  /** A line's price after its own discounts. */
  function Price(l: Line): nat { Sub(l.lineTotal, l.discount) }

  /** What the customer pays for the line. */
  function Gross(l: Line): nat { if l.taxInclusive then Price(l) else Price(l) + l.tax }

  function ExclusiveTax(l: Line): nat { if l.taxInclusive then 0 else l.tax }

  /** Cents by which the line's discount exceeds its total. */
  function Over(l: Line): nat { Sub(l.discount, l.lineTotal) }

  function Subtotal(lines: seq<Line>): nat { SumBy(lines, (l: Line) => l.lineTotal) }
  function LineDiscounts(lines: seq<Line>): nat { SumBy(lines, (l: Line) => l.discount) }
  function NetTotal(lines: seq<Line>): nat { SumBy(lines, (l: Line) => Price(l)) }
  function GrossTotal(lines: seq<Line>): nat { SumBy(lines, (l: Line) => Gross(l)) }
  function TaxTotal(lines: seq<Line>): nat { SumBy(lines, (l: Line) => l.tax) }
  function ExclusiveTaxTotal(lines: seq<Line>): nat { SumBy(lines, (l: Line) => ExclusiveTax(l)) }
  function OverTotal(lines: seq<Line>): nat { SumBy(lines, (l: Line) => Over(l)) }
  function CouponTotal(coupons: seq<Coupon>): nat { SumBy(coupons, (c: Coupon) => c.discount) }
  function Tendered(payments: seq<Payment>): nat { SumBy(payments, (p: Payment) => p.amount) }

  function Total(c: CartValue): nat { Sub(GrossTotal(c.lines), CouponTotal(c.coupons)) }

  predicate CanEdit(s: CartState) { s.Open? || s.Itemized? || s.Discounted? }

  predicate CanTender(s: CartState) { s.Itemized? || s.Discounted? }

  function Repriced(l: Line, r: PriceResult): Line {
    l.(unitPrice := r.unitPrice, lineTotal := r.lineTotal, discount := r.discount,
       tax := r.tax, taxInclusive := r.taxInclusive)
  }

  /** Index of the first line with this id, or the number of lines. */
  function FindLine(lines: seq<Line>, id: Uuid): (i: nat)
    ensures i <= |lines|
    ensures i < |lines| ==> lines[i].lineId == id
    ensures forall j :: 0 <= j < i ==> lines[j].lineId != id
  {
    if lines == [] || lines[0].lineId == id then 0 else 1 + FindLine(lines[1..], id)
  }

  /** Each result overwrites the prices of the first line with its id; results without a line are dropped. */
  function SetPrices(lines: seq<Line>, results: seq<PriceResult>): (out: seq<Line>)
    ensures |out| == |lines|
    decreases |results|
  {
    if results == [] then lines
    else
      var i := FindLine(lines, results[0].lineId);
      SetPrices(if i < |lines| then lines[i := Repriced(lines[i], results[0])] else lines, results[1..])
  }

  function StateOfLines(lines: seq<Line>): CartState { if lines == [] then Open else Itemized }

  function NewLine(lineId: Uuid, itemId: Uuid, quantity: U32, unitPrice: nat): Line {
    Line(lineId, itemId, quantity, unitPrice, unitPrice * quantity, 0, 0, false)
  }

  function WithPayment(c: CartValue, p: Payment): CartValue {
    var c' := c.(payments := c.payments + [p]);
    if Tendered(c'.payments) >= Total(c') then c'.(state := Paid) else c'
  }

  function OrderOf(c: CartValue): Order {
    Order(c.lines, Subtotal(c.lines), LineDiscounts(c.lines) + CouponTotal(c.coupons), TaxTotal(c.lines),
          Total(c), c.payments, c.coupons)
  }

  class Cart {
    var state: CartState
    var lines: seq<Line>
    var promoIds: seq<Uuid>
    var coupons: seq<Coupon>
    var manual: seq<ManualDiscount>
    var payments: seq<Payment>

    function Value(): CartValue
      reads this
    {
      CartValue(state, lines, promoIds, coupons, manual, payments)
    }

    constructor ()
      ensures Value() == CartValue(Open, [], [], [], [], [])
    {
      state, lines, promoIds, coupons, manual, payments := Open, [], [], [], [], [];
    }

    method AddLineItem(lineId: Uuid, itemId: Uuid, quantity: U32, unitPrice: nat)
      modifies this
      ensures Value() == old(Value()).(
        lines := old(lines) + [NewLine(lineId, itemId, quantity, unitPrice)], state := Itemized)
    {
      lines := lines + [NewLine(lineId, itemId, quantity, unitPrice)];
      state := StateOfLines(lines);
    }

    method RemoveLineItem(lineId: Uuid) returns (r: Result<()>)
      modifies this
      ensures r == if !CanEdit(old(state)) then Err(InvalidTransition)
                   else if FindLine(old(lines), lineId) == |old(lines)| then Err(LineNotFound) else Ok(())
      ensures r.Err? ==> Value() == old(Value())
      ensures r.Ok? ==>
        var i := FindLine(old(lines), lineId);
        var rest := old(lines)[..i] + old(lines)[i + 1..];
        Value() == old(Value()).(lines := rest, state := StateOfLines(rest))
    {
      if !CanEdit(state) {
        return Err(InvalidTransition);
      }
      var i := FindLine(lines, lineId);
      if i == |lines| {
        return Err(LineNotFound);
      }
      lines := lines[..i] + lines[i + 1..];
      state := StateOfLines(lines);
      r := Ok(());
    }

    method ApplyPricing(results: seq<PriceResult>)
      modifies this
      ensures Value() == old(Value()).(
        lines := SetPrices(old(lines), results), state := StateOfLines(SetPrices(old(lines), results)))
    {
      for k := 0 to |results|
        invariant Value() == old(Value()).(lines := lines)
        invariant SetPrices(old(lines), results) == SetPrices(lines, results[k..])
      {
        var i := FindLine(lines, results[k].lineId);
        assert results[k..][1..] == results[k + 1..];
        if i < |lines| {
          lines := lines[i := Repriced(lines[i], results[k])];
        }
      }
      state := StateOfLines(lines);
    }

    method SetDiscounted()
      modifies this`state
      ensures state == Discounted
    {
      state := Discounted;
    }

    method SetTendering()
      modifies this`state
      ensures state == Tendering
    {
      state := Tendering;
    }

    method AddPayment(p: Payment) returns (r: Result<()>)
      modifies this
      ensures r == if old(state).Tendering? || old(state).Paid? then Ok(()) else Err(InvalidTransition)
      ensures Value() == if r.Ok? then WithPayment(old(Value()), p) else old(Value())
    {
      if state != Tendering && state != Paid {
        return Err(InvalidTransition);
      }
      payments := payments + [p];
      if Tendered(payments) >= Total(Value()) {
        state := Paid;
      }
      r := Ok(());
    }

    method EnsureCanFinalize() returns (r: Result<()>)
      ensures r == if !state.Paid? then Err(InvalidTransition)
                   else if Tendered(payments) < Total(Value()) then Err(PaymentExceedsTotal) else Ok(())
    {
      if state != Paid {
        return Err(InvalidTransition);
      }
      if Tendered(payments) < Total(Value()) {
        return Err(PaymentExceedsTotal);
      }
      r := Ok(());
    }

    /** The order of a paid cart. */
    method ToOrder() returns (r: Result<Order>)
      ensures r.Ok? <==> state.Paid? && Tendered(payments) >= Total(Value())
      ensures r.Ok? ==> r.value == OrderOf(Value())
    {
      var ok := EnsureCanFinalize();
      match ok
      case Err(e) => r := Err(e);
      case Ok(_) => r := Ok(OrderOf(Value()));
    }
  }

  // ---- totals ----

  /** The two ways to arrive at the gross of all lines: line by line, and from the subtotal. */
  lemma {:induction false} GrossFromSubtotal(lines: seq<Line>)
    ensures GrossTotal(lines) + LineDiscounts(lines)
         == Subtotal(lines) + ExclusiveTaxTotal(lines) + OverTotal(lines)
  {
    if lines != [] {
      GrossFromSubtotal(lines[1..]);
    }
  }

  lemma {:induction false} NetWithinGross(lines: seq<Line>)
    ensures NetTotal(lines) <= GrossTotal(lines)
    ensures GrossTotal(lines) == NetTotal(lines) + ExclusiveTaxTotal(lines)
  {
    if lines != [] {
      NetWithinGross(lines[1..]);
    }
  }

  /** With distinct ids, setting prices line by line is repricing each line with its own result. */
  lemma {:induction false} SetPricesPointwise(lines: seq<Line>, results: seq<PriceResult>, k: nat)
    requires DistinctLines(lines) && |results| == |lines| && k <= |lines|
    requires forall i :: k <= i < |lines| ==> results[i].lineId == lines[i].lineId
    ensures var out := SetPrices(lines, results[k..]);
            forall i :: 0 <= i < |lines| ==> out[i] == if i < k then lines[i] else Repriced(lines[i], results[i])
    decreases |lines| - k
  {
    if k < |lines| {
      assert results[k..][1..] == results[k + 1..];
      assert FindLine(lines, results[k].lineId) == k;
      SetPricesPointwise(lines[k := Repriced(lines[k], results[k])], results, k + 1);
    }
  }
}
