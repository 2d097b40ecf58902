/**
  What the commands and the pricing of a cart come to, told from the cart, the command and the
  catalog alone.
 */
module CartLaws {
  import opened Seqs
  import opened Division
  import opened Pricing
  import opened Splitting
  import opened Promotions
  import opened Carts
  import opened Pipeline
  import opened PipelineLaws
  import opened CartRuns

  // ---- lines ----

  /** Line i has this id, and no other line has. */
  ghost predicate OnlyLine(lines: seq<Line>, i: nat, id: Uuid) {
    i < |lines| && forall j :: 0 <= j < |lines| ==> (lines[j].lineId == id <==> j == i)
  }

  /** The line is the same item in the same number at the same price. */
  ghost predicate SameGood(a: Line, b: Line) {
    && a.lineId == b.lineId && a.itemId == b.itemId && a.quantity == b.quantity
    && a.unitPrice == b.unitPrice && a.lineTotal == b.lineTotal
  }

  lemma PricedGoods(c: CartValue, env: Env)
    ensures var after := PricedCart(c, env);
      |after.lines| == |c.lines| && forall i :: 0 <= i < |c.lines| ==> SameGood(c.lines[i], after.lines[i])
  {
    PipelineKeepsGoods(c, env);
  }

  /** An added line is the one line with its id, with the item, number and price asked for; the others stay. */
  lemma AddedLineIs(c: CartValue, id: Uuid, item: Uuid, quantity: U32, unitPrice: nat, env: Env)
    requires CanEdit(c.state) && CartInv(c) && Fresh(c, AddLine(id, item, quantity, unitPrice))
    ensures var after, n := Step(c, AddLine(id, item, quantity, unitPrice), env), |c.lines|;
      && |after.lines| == n + 1 && OnlyLine(after.lines, n, id)
      && after.lines[n].itemId == item && after.lines[n].quantity == quantity && after.lines[n].unitPrice == unitPrice
      && after.lines[n].lineTotal == quantity * unitPrice
      && forall i :: 0 <= i < n ==> SameGood(c.lines[i], after.lines[i])
  {
    var cmd := AddLine(id, item, quantity, unitPrice);
    var changed := Change(c, cmd, env).value;
    assert Step(c, cmd, env) == PricedCart(changed, env);
    PricedGoods(changed, env);
    forall i | 0 <= i < |c.lines| ensures changed.lines[i].lineId != id && changed.lines[i] == c.lines[i] {
      assert c.lines[i] in c.lines;
    }
    StepInv(c, cmd, env);
    Commute(quantity, unitPrice);
    assert SameGood(changed.lines[|c.lines|], Step(c, cmd, env).lines[|c.lines|]);
  }

  /** An update is accepted for a line of the cart and a positive number, and changes that number alone. */
  lemma UpdatedLineIs(c: CartValue, id: Uuid, quantity: U32, env: Env, at: nat)
    requires CanEdit(c.state) && CartInv(c) && quantity > 0 && at < |c.lines| && c.lines[at].lineId == id
    ensures var after := Step(c, UpdateLine(id, quantity), env);
      && |after.lines| == |c.lines| && OnlyLine(after.lines, at, id)
      && after.lines[at].quantity == quantity && after.lines[at].lineTotal == quantity * c.lines[at].unitPrice
      && after.lines[at].itemId == c.lines[at].itemId && after.lines[at].unitPrice == c.lines[at].unitPrice
      && forall i :: 0 <= i < |c.lines| && i != at ==> SameGood(c.lines[i], after.lines[i])
  {
    var cmd := UpdateLine(id, quantity);
    assert FindLine(c.lines, id) == at;
    var changed := Change(c, cmd, env).value;
    assert Step(c, cmd, env) == PricedCart(changed, env);
    PricedGoods(changed, env);
    Commute(quantity, c.lines[at].unitPrice);
    assert SameGood(changed.lines[at], Step(c, cmd, env).lines[at]);
    forall i | 0 <= i < |c.lines| && i != at ensures SameGood(c.lines[i], Step(c, cmd, env).lines[i]) {
      assert changed.lines[i] == c.lines[i];
    }
  }

  /** The lines but the one at `at`, in order, with the same goods. */
  ghost predicate LinesWithout(before: seq<Line>, at: nat, after: seq<Line>) {
    && at < |before| && |after| == |before| - 1
    && (forall i :: 0 <= i < |after| ==> SameGood(before[if i < at then i else i + 1], after[i]))
  }

  /** A removed line is gone and the others stay, in their order. */
  lemma RemovedLineIs(c: CartValue, id: Uuid, env: Env, at: nat)
    requires CanEdit(c.state) && CartInv(c) && at < |c.lines| && c.lines[at].lineId == id
    ensures var after := Step(c, RemoveLine(id), env);
            LinesWithout(c.lines, at, after.lines) && forall i :: 0 <= i < |after.lines| ==> after.lines[i].lineId != id
  {
    var changed := RemovalIs(c, id, env, at);
    PricedGoods(changed, env);
    RemovedGoods(c.lines, at, changed.lines, Step(c, RemoveLine(id), env).lines);
  }

  lemma RemovedGoods(before: seq<Line>, at: nat, left: seq<Line>, after: seq<Line>)
    requires at < |before| && left == before[..at] + before[at + 1..] && DistinctLines(before)
    requires |after| == |left| && forall i :: 0 <= i < |left| ==> SameGood(left[i], after[i])
    ensures LinesWithout(before, at, after)
    ensures forall i :: 0 <= i < |after| ==> after[i].lineId != before[at].lineId
  {
    forall i | 0 <= i < |after|
      ensures after[i].lineId != before[at].lineId && SameGood(before[if i < at then i else i + 1], after[i])
    {
      assert SameGood(left[i], after[i]);
    }
  }

  lemma RemovalIs(c: CartValue, id: Uuid, env: Env, at: nat) returns (changed: CartValue)
    requires CanEdit(c.state) && CartInv(c) && at < |c.lines| && c.lines[at].lineId == id
    ensures changed.lines == c.lines[..at] + c.lines[at + 1..]
    ensures Step(c, RemoveLine(id), env) == if changed.lines == [] then changed else PricedCart(changed, env)
  {
    assert FindLine(c.lines, id) == at;
    changed := Change(c, RemoveLine(id), env).value;
  }

  /** Edits of lines that are not there, or to none of a line, change nothing. */
  lemma MissingLinesAreRefused(c: CartValue, id: Uuid, quantity: U32, env: Env)
    ensures (forall i :: 0 <= i < |c.lines| ==> c.lines[i].lineId != id) ==>
      Step(c, UpdateLine(id, quantity), env) == c && Step(c, RemoveLine(id), env) == c
    ensures Step(c, UpdateLine(id, 0), env) == c
  {
  }

  // ---- states ----

  /** What each state refuses. */
  lemma RefusedIn(c: CartValue, cmd: Command, env: Env)
    ensures IsEdit(cmd) && c.state !in {Open, Itemized, CartState.Discounted} ==> Step(c, cmd, env) == c
    ensures cmd.EnterTendering? && c.state !in {Itemized, CartState.Discounted} ==> Step(c, cmd, env) == c
    ensures cmd.AddTender? && c.state !in {Tendering, Paid} ==> Step(c, cmd, env) == c
    ensures cmd.FinalizeOrder? && c.state != Paid ==> Step(c, cmd, env) == c
    ensures cmd.VoidCart? && c.state in {Finalized, Voided} ==> Step(c, cmd, env) == c
  {
  }

  /** And what the others do, in every reachable cart. */
  lemma AcceptedIn(c: CartValue, cmd: Command, env: Env)
    requires CartInv(c)
    ensures cmd.EnterTendering? && c.state in {Itemized, CartState.Discounted} ==> Step(c, cmd, env) == c.(state := Tendering)
    ensures cmd.AddTender? && c.state in {Tendering, Paid} ==>
      Step(c, cmd, env).payments == c.payments + [cmd.payment]
      && Step(c, cmd, env) == c.(payments := c.payments + [cmd.payment], state := Step(c, cmd, env).state)
      && (Step(c, cmd, env).state == Paid <==> c.state == Paid || Tendered(c.payments) + cmd.payment.amount >= Total(c))
    ensures cmd.FinalizeOrder? && c.state == Paid ==> Step(c, cmd, env) == c.(state := Finalized)
    ensures cmd.VoidCart? && c.state !in {Finalized, Voided} ==>
      Step(c, cmd, env).state == Voided && Step(c, cmd, env).lines == [] && Step(c, cmd, env).payments == []
  {
    if cmd.AddTender? && c.state in {Tendering, Paid} {
      TenderedAppend(c.payments, cmd.payment);
      assert Total(c.(payments := c.payments + [cmd.payment])) == Total(c);
    }
  }

  // ---- which promotions are applied, and the state a cart is priced into ----

  /** The automatic promotions come first, then those asked for by an id that no automatic one has. */
  lemma AppliedPromos(promos: seq<Promotion>, requested: seq<Uuid>, p: Promotion)
    ensures var ps := PromosToApply(promos, requested);
      forall i, j :: 0 <= i < j < |ps| && ps[j].code == None ==> ps[i].code == None
    ensures p in PromosToApply(promos, requested) <==>
      p in promos
      && (p.code == None
          || (p.id in requested && forall q :: q in promos && q.code == None ==> q.id != p.id))
  {
    var automatic := Filter(promos, IsAutomatic());
    FilterMembers(promos, IsAutomatic());
    FilterMembers(promos, IsRequested(requested, Ids(automatic)));
    PromoIn(automatic, promos, IsAutomatic());
    PromoIn(Filter(promos, IsRequested(requested, Ids(automatic))), promos, IsRequested(requested, Ids(automatic)));
  }

  lemma PromoIn(kept: seq<Promotion>, promos: seq<Promotion>, keep: Promotion -> bool)
    requires kept == Filter(promos, keep)
    ensures forall p :: p in kept <==> p in promos && keep(p)
  {
    FilterMembers(promos, keep);
    forall p | p in kept ensures p in promos && keep(p) {
      var i :| 0 <= i < |kept| && kept[i] == p;
    }
  }

  /**
    Promotions are applied to the cart's own lines and subtotal, and what they leave behind is
    what the priced lines are discounted by unless manual discounts follow.
   */
  lemma PromotionsSeeTheCart(c: CartValue, env: Env)
    requires PricedPerUnit(c.lines)
    ensures var b, r := BasketOf(c.lines, env), PricedCart(c, env);
      && |b.lines| == |c.lines| && b.subtotal == UnitsTimesPrice(c.lines)
      && (forall i :: 0 <= i < |c.lines| ==>
            var l := c.lines[i];
            b.lines[i] == BasketLine(l.lineId, l.itemId, l.quantity, l.quantity * l.unitPrice))
      && b.categories == env.categories && b.now == env.now
      && var out := ApplyPromos(PromosToApply(env.promos, c.promoIds), b);
         && r.promoIds == out.ids
         && (c.manual == [] ==> |r.lines| == |c.lines| && forall i :: 0 <= i < |r.lines| ==>
               r.lines[i].discount == Get(out.tally.discounts, c.lines[i].lineId))
  {
    SubtotalIs(c.lines);
    forall i | 0 <= i < |c.lines| ensures c.lines[i].lineTotal == c.lines[i].quantity * c.lines[i].unitPrice {
      Commute(c.lines[i].quantity, c.lines[i].unitPrice);
    }
  }

  /** A cart is left discounted when it has manual discounts, a discounted line or a coupon worth something. */
  lemma PricedState(c: CartValue, env: Env)
    ensures var r := PricedCart(c, env);
      r.state ==
        if c.manual != [] || (exists i :: 0 <= i < |r.lines| && r.lines[i].discount > 0)
           || (exists i :: 0 <= i < |r.coupons| && r.coupons[i].discount > 0) then CartState.Discounted
        else if c.lines == [] then Open
        else Itemized
  {
    var priced := PromoStage(c, PromoOutcome(c, env), env);
    var r := PricedCart(c, env);
    AnyDiscountAt(priced.lines);
    if exists i :: 0 <= i < |r.coupons| && r.coupons[i].discount > 0 {
      var i :| 0 <= i < |r.coupons| && r.coupons[i].discount > 0;
      assert r.coupons[i] in r.coupons;
    }
  }

  lemma AnyDiscountAt(lines: seq<Line>)
    ensures AnyDiscount(lines) <==> exists i :: 0 <= i < |lines| && lines[i].discount > 0
  {
    if i :| 0 <= i < |lines| && lines[i].discount > 0 {
      assert lines[i] in lines;
    }
  }

  /** A promotion taken off the cart is not applied again, unless it is automatic. */
  lemma RemovedPromoStaysOff(c: CartValue, id: Uuid, env: Env)
    requires CanEdit(c.state) && id in c.promoIds
    requires forall p :: p in env.promos && p.id == id ==> p.code.Some?
    ensures id !in Step(c, RemovePromo(id), env).promoIds
  {
    var changed := Change(c, RemovePromo(id), env).value;
    var ps := PromosToApply(env.promos, changed.promoIds);
    var b := BasketOf(changed.lines, env);
    AppliedAreGiven(SortBy(ps, PriorityKey()), b, InitialTally(b.lines));
    SortMembers(ps, PriorityKey());
    IdIsGone(c.promoIds, id);
    if id in Step(c, RemovePromo(id), env).promoIds {
      var p :| p in SortBy(ps, PriorityKey()) && p.id == id;
      AppliedPromos(env.promos, changed.promoIds, p);
      assert false;
    }
  }

  lemma {:induction false} IdIsGone(ids: seq<Uuid>, id: Uuid)
    ensures id !in Filter(ids, NotPromo(id))
  {
    if ids != [] {
      IdIsGone(ids[1..], id);
    }
  }

  // ---- manual discounts ----

  ghost predicate FirstWithId(lines: seq<Line>, id: Uuid, at: int) {
    0 <= at < |lines| && lines[at].lineId == id && forall j :: 0 <= j < at ==> lines[j].lineId != id
  }

  /**
    A cart-wide discount is on the subtotal, an item's on what the item still costs; a
    percentage is rounded down, and none exceeds what it is on.
   */
  lemma ManualAmountIs(c: CartValue, kind: DiscountKind, value: nat, id: Uuid, at: nat)
    requires kind.PercentItem? || kind.FixedItem? ==>
      FirstWithId(c.lines, id, at)
    ensures var base := if kind.PercentCart? || kind.FixedCart? then Subtotal(c.lines) else Price(c.lines[at]);
      && ManualAmount(c, kind, value, id).Some?
      && var amount := ManualAmount(c, kind, value, id).value;
         && amount <= base
         && (kind.FixedCart? || kind.FixedItem? ==> amount == value || (amount == base && base < value))
         && (kind.PercentCart? || kind.PercentItem? ==>
               (value <= 10000 ==> 10000 * amount <= base * value < 10000 * (amount + 1))
               && (value >= 10000 ==> amount == base))
  {
    var base := if kind.PercentCart? || kind.FixedCart? then Subtotal(c.lines) else Price(c.lines[at]);
    if kind.PercentItem? || kind.FixedItem? {
      assert FindLine(c.lines, id) == at;
    }
    PercentOf(base, value);
  }

  lemma PercentOf(base: nat, bps: nat)
    ensures var amount := Min(base * bps / BASIS_POINTS, base);
      && amount >= 0
      && (bps <= 10000 ==> 10000 * amount <= base * bps < 10000 * (amount + 1))
      && (bps >= 10000 ==> amount == base)
  {
    DivBounds(base * bps, BASIS_POINTS);
    if bps <= 10000 {
      MulLe(base, bps, BASIS_POINTS);
      Commute(base, BASIS_POINTS);
      DivLe(base * bps, BASIS_POINTS, base);
    }
    if bps >= 10000 {
      MulLe(base, BASIS_POINTS, bps);
      DivMonotone(base * BASIS_POINTS, base * bps, BASIS_POINTS);
      Commute(base, BASIS_POINTS);
      DivIs(BASIS_POINTS * base, BASIS_POINTS, base);
    }
  }

  /** A missing item has no amount, and its discount is refused. */
  lemma NoAmountWithoutItem(c: CartValue, kind: DiscountKind, value: nat, id: Uuid, env: Env)
    requires (kind.PercentItem? || kind.FixedItem?) && forall j :: 0 <= j < |c.lines| ==> c.lines[j].lineId != id
    ensures ManualAmount(c, kind, value, id) == None
    ensures Step(c, ApplyManualDiscount(kind, value, id), env) == c
  {
    assert FindLine(c.lines, id) == |c.lines|;
  }

  /**
    One stored discount: on a line, that line alone is discounted, by the amount or by all it
    costs; on the cart, all lines become free if it covers them, and otherwise it is taken off
    but for the slack of the split.
   */
  lemma ManualDiscountIs(lines: seq<Line>, md: ManualDiscount)
    requires md.amount > 0
    ensures var out := ManualOne(lines, md);
      && |out| == |lines|
      && (forall i :: 0 <= i < |lines| ==>
            && out[i] == lines[i].(discount := out[i].discount)
            && lines[i].discount <= out[i].discount <= lines[i].discount + Price(lines[i]))
      && (forall at :: (md.lineId.Some? && FirstWithId(lines, md.lineId.value, at)) ==>
              out == lines[at := lines[at].(discount := lines[at].discount + Min(md.amount, Price(lines[at])))])
      && (md.lineId.Some? && (forall j :: 0 <= j < |lines| ==> lines[j].lineId != md.lineId.value) ==> out == lines)
      && (md.lineId.None? && md.amount >= Sum(Prices(lines)) ==> forall i :: 0 <= i < |out| ==> Price(out[i]) == 0)
      && (md.lineId.None? && md.amount <= Sum(Prices(lines)) ==>
            md.amount - Slack(|lines|) <= LineDiscounts(out) - LineDiscounts(lines) <= md.amount)
  {
    var out := ManualOne(lines, md);
    ManualSharesFit(lines, md);
    if md.lineId.Some? {
      ManualOnLine(lines, md);
      forall at | FirstWithId(lines, md.lineId.value, at)
        ensures FindLine(lines, md.lineId.value) == at
      {
      }
    } else {
      CartDiscountIs(lines, md);
    }
  }

  lemma {:induction false} DiscountsGrow(lines: seq<Line>, shares: seq<nat>)
    requires |shares| == |lines|
    ensures LineDiscounts(TakeOffEach(lines, shares)) == LineDiscounts(lines) + Sum(shares)
  {
    if lines != [] {
      DiscountsGrow(lines[1..], shares[1..]);
      assert TakeOffEach(lines, shares)[1..] == TakeOffEach(lines[1..], shares[1..]);
    }
  }

  lemma CartDiscountIs(lines: seq<Line>, md: ManualDiscount)
    requires md.amount > 0 && md.lineId.None?
    ensures var out := ManualOne(lines, md);
      && (md.amount >= Sum(Prices(lines)) ==> forall i :: 0 <= i < |out| ==> Price(out[i]) == 0)
      && (md.amount <= Sum(Prices(lines)) ==>
            md.amount - Slack(|lines|) <= LineDiscounts(out) - LineDiscounts(lines) <= md.amount)
  {
    var nets := Prices(lines);
    SumZero(nets);
    if Sum(nets) == 0 {
      ManualOnFreeCart(lines, md);
      assert forall i :: 0 <= i < |lines| ==> nets[i] == Price(lines[i]);
    } else {
      CappedSplit(nets, md.amount);
      DiscountsGrow(lines, ManualShares(lines, md));
    }
  }

  /** A discount on the whole cart is split over its lines by what each still costs. */
  lemma CartDiscountIsSplit(lines: seq<Line>, md: ManualDiscount) returns (shares: seq<nat>)
    requires md.lineId.None?
    ensures IsCappedSplit(Prices(lines), md.amount, shares)
    ensures var out := ManualOne(lines, md);
            |out| == |lines| && forall i :: 0 <= i < |lines| ==>
              out[i] == lines[i].(discount := lines[i].discount + shares[i])
  {
    var nets := Prices(lines);
    SumZero(nets);
    if md.amount == 0 || Sum(nets) == 0 {
      shares := seq(|lines|, _ => 0);
      NoCentsNoShares(nets, md.amount, shares);
    } else {
      shares := ManualShares(lines, md);
      CappedSharesAre(nets, md.amount);
    }
  }

  /** The lines after each of the discounts in turn. */
  ghost predicate Stages(lines: seq<Line>, mds: seq<ManualDiscount>, stages: seq<seq<Line>>) {
    && |stages| == |mds| + 1 && stages[0] == lines
    && forall k :: 0 <= k < |mds| ==> stages[k + 1] == ManualOne(stages[k], mds[k])
  }

  lemma {:induction false} AllStages(lines: seq<Line>, mds: seq<ManualDiscount>) returns (stages: seq<seq<Line>>)
    ensures Stages(lines, mds, stages) && stages[|mds|] == ManualAll(lines, mds)
    decreases |mds|
  {
    if mds == [] {
      stages := [lines];
    } else {
      var rest := AllStages(ManualOne(lines, mds[0]), mds[1..]);
      stages := [lines] + rest;
      forall k | 0 <= k < |mds| ensures stages[k + 1] == ManualOne(stages[k], mds[k]) {
        assert k > 0 ==> rest[k] == ManualOne(rest[k - 1], mds[1..][k - 1]);
      }
    }
  }

  /**
    A manual discount is stored with its amount, and all stored ones are taken off the current
    lines one after the other; nothing else of the cart but its taxes changes.
   */
  lemma ManualStepIs(c: CartValue, kind: DiscountKind, value: nat, id: Uuid, env: Env) returns (stages: seq<seq<Line>>)
    requires CanEdit(c.state)
    requires ManualAmount(c, kind, value, id).Some? && ManualAmount(c, kind, value, id).value > 0
    ensures var after, amount := Step(c, ApplyManualDiscount(kind, value, id), env), ManualAmount(c, kind, value, id).value;
      && after.state == CartState.Discounted
      && after.manual == c.manual + [ManualDiscount(amount, if kind in {PercentItem, FixedItem} then Some(id) else None)]
      && after.promoIds == c.promoIds && after.coupons == c.coupons && after.payments == c.payments
      && Stages(c.lines, after.manual, stages)
      && var last := stages[|after.manual|];
         |after.lines| == |last| && forall i :: 0 <= i < |last| ==>
           after.lines[i] == last[i].(tax := after.lines[i].tax, taxInclusive := after.lines[i].taxInclusive)
  {
    stages := AllStages(c.lines, Step(c, ApplyManualDiscount(kind, value, id), env).manual);
  }

  // ---- coupons ----

  ghost function Codes(coupons: seq<Coupon>): seq<string> {
    seq(|coupons|, i requires 0 <= i < |coupons| => coupons[i].code)
  }

  lemma PricedCodes(c: CartValue, env: Env)
    ensures Codes(PricedCart(c, env).coupons) == Codes(c.coupons)
  {
    var r := PricedCart(c, env);
    CouponsOnNet(c, env, r);
    KeepsCodes(c.coupons, env, NetTotal(r.lines));
  }

  lemma {:induction false} KeepsCodes(coupons: seq<Coupon>, env: Env, net: nat)
    ensures Codes(PricedCoupons(coupons, env, net)) == Codes(coupons)
  {
    if coupons != [] {
      var out := PricedCoupons(coupons, env, net);
      FirstCouponFits(coupons, env, net, out);
      CouponIsWorth(coupons[0], env, net);
      KeepsCodes(coupons[1..], env, net - out[0].discount);
      assert Codes(coupons) == [coupons[0].code] + Codes(coupons[1..]);
      assert Codes(out) == [out[0].code] + Codes(out[1..]);
    }
  }

  ghost predicate HasCode(coupons: seq<Coupon>, asked: string) {
    exists i :: 0 <= i < |coupons| && SameCode(coupons[i].code, asked)
  }

  lemma AddCoupon(c: CartValue, id: Uuid, asked: string, code: string, env: Env) returns (changed: CartValue)
    ensures Change(c, ApplyCoupon(id, asked, code), env) == Some(changed)
    ensures Codes(changed.coupons) == Codes(c.coupons) + if HasCode(c.coupons, asked) then [] else [code]
  {
    changed := Change(c, ApplyCoupon(id, asked, code), env).value;
    if HasCode(c.coupons, asked) {
      var i :| 0 <= i < |c.coupons| && SameCode(c.coupons[i].code, asked);
      assert c.coupons[i] in c.coupons;
    } else {
      assert changed.coupons == c.coupons + [Coupon(id, code, 0)];
    }
  }

  lemma EditIsPriced(c: CartValue, cmd: Command, env: Env, changed: CartValue)
    requires CanEdit(c.state) && (cmd.ApplyCoupon? || cmd.RemoveCoupon?) && Change(c, cmd, env) == Some(changed)
    ensures Step(c, cmd, env) == PricedCart(changed, env)
  {
  }

  /** A coupon is added unless the code asked for is there already. */
  lemma CouponIsAdded(c: CartValue, id: Uuid, asked: string, code: string, env: Env)
    requires CanEdit(c.state)
    ensures Codes(Step(c, ApplyCoupon(id, asked, code), env).coupons)
         == Codes(c.coupons) + if HasCode(c.coupons, asked) then [] else [code]
  {
    var changed := AddCoupon(c, id, asked, code, env);
    EditIsPriced(c, ApplyCoupon(id, asked, code), env, changed);
    PricedCodes(changed, env);
  }

  lemma TakeCoupon(c: CartValue, id: Uuid, env: Env)
    ensures match Change(c, RemoveCoupon(id), env)
            case Some(changed) => changed.coupons == WithoutCoupon(c.coupons, id)
            case None => c.coupons == WithoutCoupon(c.coupons, id)
  {
    CouponsWithout(c.coupons, id);
  }

  /** Coupons with the removed id go, the others stay. */
  lemma CouponIsRemoved(c: CartValue, id: Uuid, env: Env)
    requires CanEdit(c.state)
    ensures Codes(Step(c, RemoveCoupon(id), env).coupons) == Codes(WithoutCoupon(c.coupons, id))
  {
    TakeCoupon(c, id, env);
    var change := Change(c, RemoveCoupon(id), env);
    if change.Some? {
      EditIsPriced(c, RemoveCoupon(id), env, change.value);
      PricedCodes(change.value, env);
    }
  }

  ghost function WithoutCoupon(coupons: seq<Coupon>, id: Uuid): seq<Coupon> {
    if coupons == [] then []
    else if coupons[|coupons| - 1].couponId == id then WithoutCoupon(coupons[..|coupons| - 1], id)
    else WithoutCoupon(coupons[..|coupons| - 1], id) + [coupons[|coupons| - 1]]
  }

  lemma {:induction false} CouponsWithout(coupons: seq<Coupon>, id: Uuid)
    ensures Filter(coupons, NotCoupon(id)) == WithoutCoupon(coupons, id)
    ensures (forall x :: x in coupons ==> x.couponId != id) ==> WithoutCoupon(coupons, id) == coupons
  {
    if coupons != [] {
      var n := |coupons| - 1;
      CouponsWithout(coupons[..n], id);
      FilterAppend(coupons[..n], [coupons[n]], NotCoupon(id));
      assert coupons == coupons[..n] + [coupons[n]];
      assert [coupons[n]][1..] == [];
    }
  }

  /** A promotion of the catalog that is asked for joins those the cart is priced with. */
  lemma PromoIsAskedFor(c: CartValue, id: Uuid, env: Env)
    requires CanEdit(c.state)
    ensures var asked := c.(promoIds := if id in c.promoIds then c.promoIds else c.promoIds + [id]);
      Step(c, ApplyPromo(id), env) ==
        if exists i :: 0 <= i < |env.promos| && env.promos[i].id == id then PricedCart(asked, env) else c
  {
    if i :| 0 <= i < |env.promos| && env.promos[i].id == id {
      assert env.promos[i] in env.promos;
    }
  }

  /** Promotion j is the first whose code is the coupon's, upper and lower case being one. */
  ghost predicate FirstWithCode(promos: seq<Promotion>, code: string, j: int) {
    && 0 <= j < |promos| && promos[j].code.Some? && SameCode(promos[j].code.value, code)
    && forall i :: 0 <= i < j ==> promos[i].code.None? || !SameCode(promos[i].code.value, code)
  }

  lemma {:induction false} CodeFound(promos: seq<Promotion>, code: string)
    ensures forall j :: FirstWithCode(promos, code, j) ==> FindCode(promos, code) == Some(promos[j])
    ensures (forall j :: !FirstWithCode(promos, code, j)) ==> FindCode(promos, code) == None
  {
    if promos != [] && !(promos[0].code.Some? && SameCode(promos[0].code.value, code)) {
      CodeFound(promos[1..], code);
      forall j | FirstWithCode(promos, code, j) ensures FindCode(promos, code) == Some(promos[j]) {
        assert FirstWithCode(promos[1..], code, j - 1);
      }
      if j :| FirstWithCode(promos[1..], code, j) {
        assert FirstWithCode(promos, code, j + 1);
      }
    } else if promos != [] {
      assert FirstWithCode(promos, code, 0);
    }
  }

  /** Codes are compared letter by letter, each letter in either case. */
  lemma CodesIgnoreCase(a: string, b: string)
    ensures SameCode(a, b) <==> |a| == |b| && forall i :: 0 <= i < |a| ==>
      || a[i] == b[i]
      || ('a' <= a[i] <= 'z' && a[i] as int - b[i] as int == 32)
      || ('a' <= b[i] <= 'z' && b[i] as int - a[i] as int == 32)
  {
  }

  /**
    What a coupon is worth on a remaining net: nothing without a promotion for its code, or
    outside that promotion's time; else its percentage rounded down, or its amount, as far as
    the net goes; nothing for the other kinds.
   */
  ghost predicate CouponWorth(code: string, env: Env, net: nat, worth: nat) {
    && ((forall j :: !FirstWithCode(env.promos, code, j)) ==> worth == 0)
    && forall j :: FirstWithCode(env.promos, code, j) ==>
         var p := env.promos[j];
         if env.now < p.validFrom || (p.validUntil.Some? && p.validUntil.value < env.now) then worth == 0
         else match p.promoType
           case PercentageOff(bps) =>
             (bps <= 10000 ==> 10000 * worth <= net * bps < 10000 * (worth + 1)) && (bps >= 10000 ==> worth == net)
           case FixedAmountOff(amount) => if amount <= net then worth == amount else worth == net
           case BuyXGetY(_, _) => worth == 0
           case PriceOverride(_) => worth == 0
  }

  lemma CouponIsWorth(coupon: Coupon, env: Env, net: nat)
    ensures CouponWorth(coupon.code, env, net, PricedCoupon(coupon, env, net).discount)
    ensures PricedCoupon(coupon, env, net).code == coupon.code
  {
    CodeFound(env.promos, coupon.code);
    forall j | FirstWithCode(env.promos, coupon.code, j)
      ensures env.promos[j].promoType.PercentageOff? ==>
        var bps := env.promos[j].promoType.percentBps;
        var worth := Min(net * bps / BASIS_POINTS, net);
        && (bps <= 10000 ==> 10000 * worth <= net * bps < 10000 * (worth + 1))
        && (bps >= 10000 ==> worth == net)
    {
      if env.promos[j].promoType.PercentageOff? {
        PercentOf(net, env.promos[j].promoType.percentBps);
      }
    }
  }

  lemma FirstCouponFits(coupons: seq<Coupon>, env: Env, net: nat, out: seq<Coupon>)
    requires coupons != [] && out == PricedCoupons(coupons, env, net)
    ensures |out| == |coupons| && out[0] == PricedCoupon(coupons[0], env, net) && out[0].discount <= net
    ensures out[1..] == PricedCoupons(coupons[1..], env, net - out[0].discount)
  {
  }

  /** Every coupon keeps its code and is worth what the net less the coupons before it allows. */
  lemma {:induction false} CouponsAreWorth(coupons: seq<Coupon>, env: Env, net: nat, out: seq<Coupon>, i: nat)
    requires i < |coupons| && out == PricedCoupons(coupons, env, net)
    ensures |out| == |coupons| && out[i].code == coupons[i].code && CouponTotal(out[..i]) <= net
    ensures CouponWorth(coupons[i].code, env, net - CouponTotal(out[..i]), out[i].discount)
  {
    FirstCouponFits(coupons, env, net, out);
    if i == 0 {
      CouponIsWorth(coupons[0], env, net);
      assert out[..0] == [];
    } else {
      CouponsAreWorth(coupons[1..], env, net - out[0].discount, out[1..], i - 1);
      assert CouponTotal(out[..i]) == out[0].discount + CouponTotal(out[1..][..i - 1]) by {
        assert out[..i][1..] == out[1..][..i - 1];
      }
    }
  }

  lemma CouponsOnNet(c: CartValue, env: Env, r: CartValue)
    requires r == PricedCart(c, env)
    ensures r.coupons == PricedCoupons(c.coupons, env, NetTotal(r.lines))
  {
  }

  /** Each coupon keeps its code and is worth its part of what the coupons before it leave of the net. */
  ghost predicate WorthInTurn(coupons: seq<Coupon>, env: Env, net: nat, out: seq<Coupon>) {
    |out| == |coupons| && forall i :: 0 <= i < |out| ==>
      var before := CouponTotal(out[..i]);
      && out[i].code == coupons[i].code && before <= net
      && CouponWorth(coupons[i].code, env, net - before, out[i].discount)
  }

  lemma AllWorthInTurn(coupons: seq<Coupon>, env: Env, net: nat)
    ensures WorthInTurn(coupons, env, net, PricedCoupons(coupons, env, net))
  {
    var out := PricedCoupons(coupons, env, net);
    forall i | 0 <= i < |out|
      ensures var before := CouponTotal(out[..i]);
        && out[i].code == coupons[i].code && before <= net
        && CouponWorth(coupons[i].code, env, net - before, out[i].discount)
    {
      CouponsAreWorth(coupons, env, net, out, i);
    }
  }

  /** A priced cart's coupons are those of the cart, worth their part of the net of the priced lines. */
  lemma PricedCartCoupons(c: CartValue, env: Env)
    ensures var r := PricedCart(c, env);
            WorthInTurn(c.coupons, env, NetTotal(r.lines), r.coupons)
  {
    var r := PricedCart(c, env);
    CouponsOnNet(c, env, r);
    AllWorthInTurn(c.coupons, env, NetTotal(r.lines));
  }

  // ---- the order ----

  function UnitsTimesPrice(lines: seq<Line>): nat {
    if lines == [] then 0 else lines[0].quantity * lines[0].unitPrice + UnitsTimesPrice(lines[1..])
  }

  lemma {:induction false} SubtotalIs(lines: seq<Line>)
    requires PricedPerUnit(lines)
    ensures Subtotal(lines) == UnitsTimesPrice(lines)
  {
    if lines != [] {
      Commute(lines[0].quantity, lines[0].unitPrice);
      assert forall i :: 0 <= i < |lines[1..]| ==> lines[1..][i] == lines[i + 1];
      SubtotalIs(lines[1..]);
    }
  }

  /**
    The order of a reachable cart adds up while its coupons fit the gross: units times prices,
    less all discounts, plus the tax not yet contained, plus what was discounted beyond a
    line's total, is the order's total.
   */
  lemma OrderAddsUp(c: CartValue)
    requires CartInv(c) && CouponTotal(c.coupons) <= GrossTotal(c.lines)
    ensures var o := OrderOf(c);
      && o.subtotal == UnitsTimesPrice(c.lines)
      && o.total + o.discount == o.subtotal + ExclusiveTaxTotal(c.lines) + OverTotal(c.lines)
      && o.discount == LineDiscounts(c.lines) + CouponTotal(c.coupons)
      && o.lines == c.lines && o.payments == c.payments && o.coupons == c.coupons
  {
    SubtotalIs(c.lines);
    GrossFromSubtotal(c.lines);
  }
}
