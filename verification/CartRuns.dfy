/** The cart commands, and what holds over every run of them. */
module CartRuns {
  import opened Seqs
  import opened Pricing
  import opened Promotions
  import opened Carts
  import opened Pipeline
  import opened PipelineLaws

  datatype DiscountKind = PercentCart | FixedCart | PercentItem | FixedItem

  /**
    A command whose checks outside the cart (stock, catalog, coupon eligibility, payment
    capture) have passed; a command that fails one of them leaves the cart alone.
   */
  datatype Command =
    | AddLine(lineId: Uuid, itemId: Uuid, quantity: U32, unitPrice: nat)
    | UpdateLine(lineId: Uuid, quantity: U32)
    | RemoveLine(lineId: Uuid)
    | ApplyPromo(promoId: Uuid)
    | RemovePromo(promoId: Uuid)
    | ApplyCoupon(couponId: Uuid, asked: string, code: string)
    | RemoveCoupon(couponId: Uuid)
    | ApplyManualDiscount(kind: DiscountKind, value: nat, lineId: Uuid)
    | EnterTendering
    | AddTender(payment: Payment)
    | FinalizeOrder
    | VoidCart

  function WithQuantity(l: Line, quantity: U32): Line {
    l.(quantity := quantity, lineTotal := l.unitPrice * quantity)
  }

  function NotPromo(id: Uuid): Uuid -> bool { (x: Uuid) => x != id }

  function NotCoupon(id: Uuid): Coupon -> bool { (c: Coupon) => c.couponId != id }

  /** The cents of a manual discount, or none when its line does not exist. */
  function ManualAmount(c: CartValue, kind: DiscountKind, value: nat, lineId: Uuid): Option<nat> {
    var at := FindLine(c.lines, lineId);
    match kind
    case PercentCart => Some(Min(Subtotal(c.lines) * value / BASIS_POINTS, Subtotal(c.lines)))
    case FixedCart => Some(Min(value, Subtotal(c.lines)))
    case PercentItem =>
      if at == |c.lines| then None
      else Some(Min(Price(c.lines[at]) * value / BASIS_POINTS, Price(c.lines[at])))
    case FixedItem =>
      if at == |c.lines| then None else Some(Min(value, Price(c.lines[at])))
  }

  /** What an editing command changes before the cart is priced again, or none when it is refused. */
  function Change(c: CartValue, cmd: Command, env: Env): Option<CartValue> {
    match cmd
    case AddLine(lineId, itemId, quantity, unitPrice) =>
      Some(c.(lines := c.lines + [NewLine(lineId, itemId, quantity, unitPrice)], state := Itemized))
    case UpdateLine(lineId, quantity) =>
      var at := FindLine(c.lines, lineId);
      if quantity == 0 || at == |c.lines| then None
      else Some(c.(lines := c.lines[at := WithQuantity(c.lines[at], quantity)]))
    case RemoveLine(lineId) =>
      var at := FindLine(c.lines, lineId);
      if at == |c.lines| then None
      else
        var rest := c.lines[..at] + c.lines[at + 1..];
        Some(c.(lines := rest, state := StateOfLines(rest)))
    case ApplyPromo(id) =>
      if exists p | p in env.promos :: p.id == id then
        Some(if id in c.promoIds then c else c.(promoIds := c.promoIds + [id]))
      else None
    case RemovePromo(id) =>
      if id !in c.promoIds then None else Some(c.(promoIds := Filter(c.promoIds, NotPromo(id))))
    case ApplyCoupon(id, asked, code) =>
      Some(if exists x | x in c.coupons :: SameCode(x.code, asked) then c
           else c.(coupons := c.coupons + [Coupon(id, code, 0)]))
    case RemoveCoupon(id) =>
      if forall x | x in c.coupons :: x.couponId != id then None
      else Some(c.(coupons := Filter(c.coupons, NotCoupon(id))))
    case ApplyManualDiscount(kind, value, lineId) =>
      var amount := ManualAmount(c, kind, value, lineId);
      if amount.None? || amount.value == 0 then None
      else
        var onLine := if kind.PercentItem? || kind.FixedItem? then Some(lineId) else None;
        Some(c.(manual := c.manual + [ManualDiscount(amount.value, onLine)]))
    case _ => None
  }

  /**
    Pricing after a change. A manual discount is applied on top of the current prices, all
    stored ones again, and does not run the pipeline; an emptied cart is not priced.
   */
  function Settle(c: CartValue, cmd: Command, env: Env): CartValue {
    if cmd.ApplyManualDiscount? then c.(lines := ManualPriced(c.lines, c.manual, env), state := Discounted)
    else if cmd.RemoveLine? && c.lines == [] then c
    else PricedCart(c, env)
  }

  predicate IsEdit(cmd: Command) {
    !(cmd.EnterTendering? || cmd.AddTender? || cmd.FinalizeOrder? || cmd.VoidCart?)
  }

  /** The cart after a command; refused commands change nothing. */
  function Step(c: CartValue, cmd: Command, env: Env): CartValue {
    if IsEdit(cmd) then
      if CanEdit(c.state) && Change(c, cmd, env).Some? then Settle(Change(c, cmd, env).value, cmd, env)
      else c
    else match cmd
      case EnterTendering => if CanTender(c.state) then c.(state := Tendering) else c
      case AddTender(p) => if c.state.Tendering? || c.state.Paid? then WithPayment(c, p) else c
      case FinalizeOrder =>
        if c.state.Paid? && Tendered(c.payments) >= Total(c) then c.(state := Finalized) else c
      case VoidCart =>
        if c.state.Finalized? || c.state.Voided? then c else CartValue(Voided, [], [], [], [], [])
      case _ => c
  }

  /** Line ids are freshly generated. */
  ghost predicate Fresh(c: CartValue, cmd: Command) {
    cmd.AddLine? ==> forall l :: l in c.lines ==> l.lineId != cmd.lineId
  }

  // ---- the handlers ----

  method Apply(cart: Cart, cmd: Command, env: Env) returns (ok: bool)
    requires IsEdit(cmd) && CanEdit(cart.state)
    modifies cart
    ensures ok == Change(old(cart.Value()), cmd, env).Some?
    ensures cart.Value() == if ok then Change(old(cart.Value()), cmd, env).value else old(cart.Value())
  {
    ok := true;
    match cmd
    case AddLine(lineId, itemId, quantity, unitPrice) =>
      cart.AddLineItem(lineId, itemId, quantity, unitPrice);
    case UpdateLine(lineId, quantity) =>
      var at := FindLine(cart.lines, lineId);
      if quantity == 0 || at == |cart.lines| {
        return false;
      }
      cart.lines := cart.lines[at := WithQuantity(cart.lines[at], quantity)];
    case RemoveLine(lineId) =>
      var r := cart.RemoveLineItem(lineId);
      ok := r.Ok?;
    case ApplyPromo(id) =>
      if !exists p | p in env.promos :: p.id == id {
        return false;
      }
      if id !in cart.promoIds {
        cart.promoIds := cart.promoIds + [id];
      }
    case RemovePromo(id) =>
      if id !in cart.promoIds {
        return false;
      }
      cart.promoIds := Filter(cart.promoIds, NotPromo(id));
    case ApplyCoupon(id, asked, code) =>
      if !exists x | x in cart.coupons :: SameCode(x.code, asked) {
        cart.coupons := cart.coupons + [Coupon(id, code, 0)];
      }
    case RemoveCoupon(id) =>
      if forall x | x in cart.coupons :: x.couponId != id {
        return false;
      }
      cart.coupons := Filter(cart.coupons, NotCoupon(id));
    case ApplyManualDiscount(kind, value, lineId) =>
      var amount := ManualAmount(cart.Value(), kind, value, lineId);
      if amount.None? || amount.value == 0 {
        return false;
      }
      var onLine := if kind.PercentItem? || kind.FixedItem? then Some(lineId) else None;
      cart.manual := cart.manual + [ManualDiscount(amount.value, onLine)];
  }

  /** One editing command, on a cart that can be edited. */
  method Perform(cart: Cart, cmd: Command, env: Env) returns (ok: bool)
    requires DistinctLines(cart.lines) && Fresh(cart.Value(), cmd) && IsEdit(cmd) && CanEdit(cart.state)
    modifies cart
    ensures ok == Change(old(cart.Value()), cmd, env).Some?
    ensures cart.Value() == Step(old(cart.Value()), cmd, env)
  {
    ChangeFacts(cart.Value(), cmd, env);
    ok := Apply(cart, cmd, env);
    if !ok {
      return;
    }
    if cmd.ApplyManualDiscount? {
      ApplyManualDiscountsToLines(cart, env);
      cart.SetDiscounted();
    } else if !(cmd.RemoveLine? && cart.lines == []) {
      var _ := RunPricingPipeline(cart, env);
    }
  }

  lemma ChangeFacts(c: CartValue, cmd: Command, env: Env)
    requires DistinctLines(c.lines) && Fresh(c, cmd) && CanEdit(c.state)
    ensures var c' := Change(c, cmd, env);
      c'.Some? ==>
        && DistinctLines(c'.value.lines) && CanEdit(c'.value.state) && c'.value.payments == c.payments
        && (cmd.ApplyManualDiscount? ==> c'.value.lines == c.lines && c'.value.manual != [])
  {
    if cmd.AddLine? {
      assert forall l :: l in c.lines ==> l.lineId != cmd.lineId;
    }
  }

  /** Any command on any cart. */
  method Handle(cart: Cart, cmd: Command, env: Env) returns (ok: bool)
    requires DistinctLines(cart.lines) && Fresh(cart.Value(), cmd)
    modifies cart
    ensures cart.Value() == Step(old(cart.Value()), cmd, env)
    ensures !ok ==> cart.Value() == old(cart.Value())
  {
    if IsEdit(cmd) {
      if !CanEdit(cart.state) {
        return false;
      }
      ok := Perform(cart, cmd, env);
      return;
    }
    ok := true;
    match cmd {
      case EnterTendering =>
        if !CanTender(cart.state) {
          return false;
        }
        cart.SetTendering();
      case AddTender(p) =>
        var r := cart.AddPayment(p);
        return r.Ok?;
      case FinalizeOrder =>
        var order := cart.ToOrder();
        if order.Err? {
          return false;
        }
        cart.state := Finalized;
      case VoidCart =>
        if cart.state.Finalized? || cart.state.Voided? {
          return false;
        }
        cart.lines, cart.promoIds, cart.coupons, cart.manual, cart.payments := [], [], [], [], [];
        cart.state := Voided;
      case _ =>
    }
  }

  // ---- runs ----

  datatype Call = Call(cmd: Command, env: Env)

  function Run(c: CartValue, calls: seq<Call>): CartValue
    decreases |calls|
  {
    if calls == [] then c else Run(Step(c, calls[0].cmd, calls[0].env), calls[1..])
  }

  ghost predicate AllFresh(c: CartValue, calls: seq<Call>)
    decreases |calls|
  {
    calls == [] ||
    (Fresh(c, calls[0].cmd) && AllFresh(Step(c, calls[0].cmd, calls[0].env), calls[1..]))
  }

  const EMPTY_CART: CartValue := CartValue(Open, [], [], [], [], [])

  /** Contained tax never exceeds the price that contains it. */
  ghost predicate TaxFits(lines: seq<Line>) {
    forall i :: 0 <= i < |lines| && lines[i].taxInclusive ==> lines[i].tax <= Price(lines[i])
  }

  /** Every line costs its unit price for each of its units. */
  ghost predicate PricedPerUnit(lines: seq<Line>) {
    forall i :: 0 <= i < |lines| ==> lines[i].lineTotal == lines[i].unitPrice * lines[i].quantity
  }

  /** What every reachable cart satisfies. */
  ghost predicate CartInv(c: CartValue) {
    && DistinctLines(c.lines)
    && PricedPerUnit(c.lines)
    && TaxFits(c.lines)
    && (CanEdit(c.state) ==> c.payments == [])
    && (c.state.Tendering? ==> c.payments == [] || Tendered(c.payments) < Total(c))
    && (c.state.Paid? || c.state.Finalized? ==> c.payments != [] && Tendered(c.payments) >= Total(c))
    && (c.state.Voided? ==> c == CartValue(Voided, [], [], [], [], []))
  }

  lemma SameGoodsSameIds(a: seq<Line>, b: seq<Line>)
    requires SameGoods(a, b) && DistinctLines(a) && PricedPerUnit(a)
    ensures DistinctLines(b) && PricedPerUnit(b)
  {
    forall i | 0 <= i < |b| ensures b[i].lineTotal == b[i].unitPrice * b[i].quantity {
      assert b[i].lineTotal == a[i].lineTotal && b[i].unitPrice == a[i].unitPrice && b[i].quantity == a[i].quantity;
      assert a[i].lineTotal == a[i].unitPrice * a[i].quantity;
    }
    forall i, j | 0 <= i < j < |b| ensures b[i].lineId != b[j].lineId {
      assert a[i].lineId == b[i].lineId && a[j].lineId == b[j].lineId;
    }
  }

  lemma WithTaxFits(lines: seq<Line>, env: Env)
    requires forall i :: 0 <= i < |lines| ==> lines[i] == WithTax(lines[i], env)
    ensures TaxFits(lines)
  {
    forall i | 0 <= i < |lines| && lines[i].taxInclusive ensures lines[i].tax <= Price(lines[i]) {
      assert lines[i] == WithTax(lines[i], env);
    }
  }

  lemma PricedCartInv(c: CartValue, env: Env)
    requires DistinctLines(c.lines) && PricedPerUnit(c.lines) && CanEdit(c.state) && c.payments == []
    ensures CartInv(PricedCart(c, env))
  {
    var c' := PricedCart(c, env);
    PipelineKeepsGoods(c, env);
    SameGoodsSameIds(c.lines, c'.lines);
    PipelineTaxesLines(c, env);
    WithTaxFits(c'.lines, env);
  }

  lemma ManualInv(c: CartValue, env: Env)
    requires DistinctLines(c.lines) && PricedPerUnit(c.lines) && CanEdit(c.state) && c.payments == [] && c.manual != []
    ensures CartInv(c.(lines := ManualPriced(c.lines, c.manual, env), state := Discounted))
  {
    var lines := ManualPriced(c.lines, c.manual, env);
    ManualAllKeepsGoods(c.lines, c.manual);
    assert SameGoods(c.lines, lines);
    SameGoodsSameIds(c.lines, lines);
    WithTaxFits(lines, env);
  }

  lemma SettleInv(c: CartValue, cmd: Command, env: Env)
    requires DistinctLines(c.lines) && PricedPerUnit(c.lines) && CanEdit(c.state) && c.payments == []
    requires cmd.ApplyManualDiscount? ==> c.manual != []
    ensures CartInv(Settle(c, cmd, env)) && CanEdit(Settle(c, cmd, env).state)
  {
    if cmd.ApplyManualDiscount? {
      ManualInv(c, env);
    } else if !(cmd.RemoveLine? && c.lines == []) {
      PricedCartInv(c, env);
    }
  }

  lemma TenderedAppend(payments: seq<Payment>, p: Payment)
    ensures Tendered(payments + [p]) == Tendered(payments) + p.amount
  {
    SumByAppend(payments, [p], (x: Payment) => x.amount);
  }

  lemma ChangePricesPerUnit(c: CartValue, cmd: Command, env: Env)
    requires PricedPerUnit(c.lines) && Change(c, cmd, env).Some?
    ensures PricedPerUnit(Change(c, cmd, env).value.lines)
  {
  }

  lemma StepInv(c: CartValue, cmd: Command, env: Env)
    requires CartInv(c) && Fresh(c, cmd)
    ensures CartInv(Step(c, cmd, env))
    ensures CanEdit(c.state) && IsEdit(cmd) ==> CanEdit(Step(c, cmd, env).state)
  {
    if IsEdit(cmd) {
      if CanEdit(c.state) && Change(c, cmd, env).Some? {
        ChangeFacts(c, cmd, env);
        ChangePricesPerUnit(c, cmd, env);
        SettleInv(Change(c, cmd, env).value, cmd, env);
      }
    } else if cmd.AddTender? {
      TenderedAppend(c.payments, cmd.payment);
      assert Total(WithPayment(c, cmd.payment)) == Total(c);
    } else {
      assert Total(c.(state := Tendering)) == Total(c) == Total(c.(state := Finalized));
    }
  }

  /** The invariant holds of every cart reachable from a new one. */
  lemma {:induction false} RunInv(c: CartValue, calls: seq<Call>)
    requires CartInv(c) && AllFresh(c, calls)
    ensures CartInv(Run(c, calls))
    decreases |calls|
  {
    if calls != [] {
      StepInv(c, calls[0].cmd, calls[0].env);
      RunInv(Step(c, calls[0].cmd, calls[0].env), calls[1..]);
    }
  }

  lemma ReachableInv(calls: seq<Call>)
    requires AllFresh(EMPTY_CART, calls)
    ensures CartInv(Run(EMPTY_CART, calls))
  {
    RunInv(EMPTY_CART, calls);
  }

  /** Once tendering has begun nothing but a void touches the lines, the coupons or the total. */
  lemma {:induction false} TotalIsFixedFromTendering(c: CartValue, calls: seq<Call>)
    requires c.state.Tendering? || c.state.Paid? || c.state.Finalized?
    requires forall k :: 0 <= k < |calls| ==> !calls[k].cmd.VoidCart?
    ensures var c' := Run(c, calls);
            && (c'.state.Tendering? || c'.state.Paid? || c'.state.Finalized?)
            && c'.lines == c.lines && c'.coupons == c.coupons && Total(c') == Total(c)
            && c.payments <= c'.payments
            && (!c.state.Tendering? ==> !c'.state.Tendering?)
            && (c.state.Finalized? ==> c' == c)
    decreases |calls|
  {
    if calls != [] {
      TotalIsFixedFromTendering(Step(c, calls[0].cmd, calls[0].env), calls[1..]);
    }
  }

  /** The last tender is the one that paid the cart. */
  ghost predicate PaidByLast(c: CartValue) {
    && c.payments != []
    && Tendered(c.payments) >= Total(c)
    && (|c.payments| == 1 || Tendered(c.payments[..|c.payments| - 1]) < Total(c))
  }

  /** No tender is added to a cart that is already paid. */
  ghost predicate StopsWhenPaid(c: CartValue, calls: seq<Call>)
    decreases |calls|
  {
    calls == [] ||
    ((c.state.Paid? ==> !calls[0].cmd.AddTender?)
      && StopsWhenPaid(Step(c, calls[0].cmd, calls[0].env), calls[1..]))
  }

  lemma PaidByLastStep(c: CartValue, cmd: Command, env: Env)
    requires CartInv(c) && Fresh(c, cmd) && (c.state.Paid? ==> !cmd.AddTender?)
    requires c.state.Paid? || c.state.Finalized? ==> PaidByLast(c)
    ensures var c' := Step(c, cmd, env);
            c'.state.Paid? || c'.state.Finalized? ==> PaidByLast(c')
  {
    StepInv(c, cmd, env);
    if cmd.AddTender? && c.state.Tendering? {
      assert (c.payments + [cmd.payment])[..|c.payments|] == c.payments;
    }
  }

  /** In a run that adds no tender once the cart is paid, the last tender is the one that paid it. */
  lemma {:induction false} PaidByLastRun(c: CartValue, calls: seq<Call>)
    requires CartInv(c) && AllFresh(c, calls) && StopsWhenPaid(c, calls)
    requires c.state.Paid? || c.state.Finalized? ==> PaidByLast(c)
    ensures var c' := Run(c, calls);
            c'.state.Paid? || c'.state.Finalized? ==> PaidByLast(c')
    decreases |calls|
  {
    if calls != [] {
      StepInv(c, calls[0].cmd, calls[0].env);
      PaidByLastStep(c, calls[0].cmd, calls[0].env);
      PaidByLastRun(Step(c, calls[0].cmd, calls[0].env), calls[1..]);
    }
  }
}
