/**
  Laws of the promotion engine over whole runs: the order of the lines and of the promotions
  does not matter, promotions that contribute nothing can be dropped, and the discounts
  exceed the line totals by no more than the rounding of the splits.
 */
module PromoLaws {
  import opened Seqs
  import opened Division
  import opened Pricing
  import opened Splitting
  import opened Promotions

  // ---- the order of the lines ----

  lemma DistinctIsInjective(lines: seq<BasketLine>)
    requires DistinctIds(lines)
    ensures KeyInjective(lines, LineKey())
  {
  }

  lemma {:induction false} InitialTallyAt(lines: seq<BasketLine>)
    requires KeyInjective(lines, LineKey())
    ensures var t := InitialTally(lines);
            && t.discounts.Keys == t.totals.Keys == (set l | l in lines :: l.lineId)
            && (forall l :: l in lines ==> t.discounts[l.lineId] == 0 && t.totals[l.lineId] == l.lineTotal)
  {
    if lines != [] {
      var n := |lines| - 1;
      var front, last := lines[..n], lines[n];
      assert lines == front + [last];
      InitialTallyAt(front);
      forall l | l in lines ensures InitialTally(lines).totals[l.lineId] == l.lineTotal {
        if l.lineId == last.lineId {
          assert LineKey()(l) == LineKey()(last);
        }
      }
    }
  }

  lemma SameLinesSameSums(b: Basket, b': Basket, target: PromoAction)
    requires DistinctIds(b.lines) && multiset(b.lines) == multiset(b'.lines)
    requires b' == b.(lines := b'.lines)
    ensures SumBy(b.lines, TargetUnits(target, b.categories)) == SumBy(b'.lines, TargetUnits(target, b'.categories))
  {
    DistinctIsInjective(b.lines);
    SumForgetsOrder(b.lines, b'.lines, LineKey(), TargetUnits(target, b.categories));
  }

  lemma SameLinesSamePromo(p: Promotion, b: Basket, b': Basket)
    requires DistinctIds(b.lines) && multiset(b.lines) == multiset(b'.lines)
    requires b' == b.(lines := b'.lines)
    ensures Runs(p, b) == Runs(p, b')
    ensures MaxUnits(p, b) == MaxUnits(p, b')
    ensures Applicable(p, b) == Applicable(p, b')
  {
    forall c | c in p.conditions ensures ConditionMet(c, b) == ConditionMet(c, b') {
      match c
      case MinBasketAmount(_) =>
      case ItemInBasket(item, _) => SameLinesSameSums(b, b', ApplyToItem(item, None));
      case CategoryInBasket(category, _) => SameLinesSameSums(b, b', ApplyToCategory(category, None));
    }
    var target := TargetAction(p.actions);
    if target.Some? {
      SameLinesSameSums(b, b', target.value);
    }
    DistinctIsInjective(b.lines);
    SortForgetsOrder(b.lines, b'.lines, LineKey());
    FilterSort(b.lines, LineKey(), Applies(p, b));
    FilterSort(b'.lines, LineKey(), Applies(p, b));
    assert Applicable(p, b') == SortBy(Filter(b'.lines, Applies(p, b)), LineKey()) by {
      SameFilter(b'.lines, p, b, b');
    }
  }

  lemma {:induction false} SameFilter(lines: seq<BasketLine>, p: Promotion, b: Basket, b': Basket)
    requires b.categories == b'.categories
    ensures Filter(lines, Applies(p, b)) == Filter(lines, Applies(p, b'))
  {
    if lines != [] {
      SameFilter(lines[1..], p, b, b');
    }
  }

  lemma {:induction false} SameLinesSameRun(ps: seq<Promotion>, b: Basket, b': Basket, t: Tally)
    requires DistinctIds(b.lines) && multiset(b.lines) == multiset(b'.lines)
    requires b' == b.(lines := b'.lines)
    ensures ApplyAll(ps, b, t) == ApplyAll(ps, b', t)
  {
    if ps != [] {
      SameLinesSamePromo(ps[0], b, b');
      SameLinesSameRun(ps[1..], b, b', ApplyOne(ps[0], b, t).tally);
    }
  }

  function NoCents(): BasketLine -> nat { (l: BasketLine) => 0 }

  function FullPrice(): BasketLine -> nat { (l: BasketLine) => l.lineTotal }

  lemma InitialMaps(lines: seq<BasketLine>)
    requires KeyInjective(lines, LineKey())
    ensures var t := InitialTally(lines);
      && t.discounts.Keys == t.totals.Keys == (set l | l in lines :: l.lineId)
      && (forall l :: l in lines ==> t.discounts[l.lineId] == NoCents()(l) && t.totals[l.lineId] == FullPrice()(l))
  {
    InitialTallyAt(lines);
  }

  lemma SameInitialTally(lines: seq<BasketLine>, lines': seq<BasketLine>)
    requires DistinctIds(lines) && multiset(lines) == multiset(lines')
    ensures InitialTally(lines) == InitialTally(lines')
  {
    SameMembers(lines, lines');
    DistinctIsInjective(lines);
    InitialMaps(lines);
    InitialMaps(lines');
    var t, t' := InitialTally(lines), InitialTally(lines');
    SameMap(lines, t.discounts, t'.discounts, NoCents());
    SameMap(lines, t.totals, t'.totals, FullPrice());
  }

  lemma SameMembers(a: seq<BasketLine>, b: seq<BasketLine>)
    requires multiset(a) == multiset(b)
    ensures forall l :: l in a <==> l in b
  {
    forall l ensures l in a <==> l in b {
      assert l in multiset(a) <==> l in multiset(b);
    }
  }

  lemma SameMap(lines: seq<BasketLine>, m: map<Uuid, nat>, m': map<Uuid, nat>, f: BasketLine -> nat)
    requires m.Keys == m'.Keys == (set l | l in lines :: l.lineId)
    requires forall l :: l in lines ==> m[l.lineId] == m'[l.lineId] == f(l)
    ensures m == m'
  {
    forall id | id in m ensures m[id] == m'[id] {
      var l :| l in lines && l.lineId == id;
    }
  }

  /** The discount of every line and the applied promotions do not depend on the order of the lines. */
  lemma LineOrderIsForgotten(ps: seq<Promotion>, b: Basket, b': Basket)
    requires DistinctIds(b.lines) && multiset(b.lines) == multiset(b'.lines)
    requires b' == b.(lines := b'.lines)
    ensures ApplyPromos(ps, b) == ApplyPromos(ps, b')
  {
    SameInitialTally(b.lines, b'.lines);
    SameLinesSameRun(SortBy(ps, PriorityKey()), b, b', InitialTally(b.lines));
  }

  // ---- the order of the promotions ----

  /** With distinct priorities, nothing depends on the order in which the promotions are listed. */
  lemma PromotionOrderIsForgotten(ps: seq<Promotion>, ps': seq<Promotion>, b: Basket)
    requires multiset(ps) == multiset(ps')
    requires forall i, j :: 0 <= i < j < |ps| ==> ps[i].priority != ps[j].priority
    ensures ApplyPromos(ps, b) == ApplyPromos(ps', b)
  {
    assert KeyInjective(ps, PriorityKey()) by {
      forall p, q | p in ps && q in ps && PriorityKey()(p) == PriorityKey()(q) ensures p == q {
        var i :| 0 <= i < |ps| && ps[i] == p;
        var j :| 0 <= j < |ps| && ps[j] == q;
      }
    }
    SortForgetsOrder(ps, ps', PriorityKey());
  }

  // ---- promotions that contribute nothing ----

  ghost predicate Covers(b: Basket, t: Tally) {
    forall l :: l in b.lines ==> l.lineId in t.discounts && l.lineId in t.totals
  }

  lemma {:induction false} AddSharesCovers(capped: seq<Capped>, shares: seq<nat>, t: Tally)
    requires |shares| == |capped|
    ensures t.discounts.Keys <= AddShares(capped, shares, t).discounts.Keys
    ensures t.totals.Keys <= AddShares(capped, shares, t).totals.Keys
  {
    if capped != [] {
      AddSharesCovers(capped[1..], shares[1..], AddShare(capped[0].line.lineId, shares[0], t));
    }
  }

  lemma ApplyOneCovers(p: Promotion, b: Basket, t: Tally)
    requires Covers(b, t)
    ensures Covers(b, ApplyOne(p, b, t).tally)
  {
    var capped := CappedLines(p, b, t.totals);
    var es := Eligibles(capped, t.totals);
    if Runs(p, b) && Sum(es) > 0 {
      var d := PromoDiscount(p, b, t.totals);
      AddSharesCovers(capped, PromoShares(es, Quotas(es, d, Sum(es)), d), t);
    }
  }

  lemma {:induction false} AddingZeros(capped: seq<Capped>, shares: seq<nat>, t: Tally)
    requires |shares| == |capped| && forall i :: 0 <= i < |shares| ==> shares[i] == 0
    requires forall i :: 0 <= i < |capped| ==>
      capped[i].line.lineId in t.discounts && capped[i].line.lineId in t.totals
    ensures AddShares(capped, shares, t) == t
  {
    if capped != [] {
      var t' := AddShare(capped[0].line.lineId, shares[0], t);
      assert t'.discounts == t.discounts && t'.totals == t.totals;
      AddingZeros(capped[1..], shares[1..], t);
    }
  }

  lemma IdlePromoIsIdentity(p: Promotion, b: Basket, t: Tally)
    requires DistinctIds(b.lines) && Covers(b, t) && ApplyOne(p, b, t).ids == []
    ensures ApplyOne(p, b, t).tally == t
  {
    var capped := CappedLines(p, b, t.totals);
    var es := Eligibles(capped, t.totals);
    if Runs(p, b) && Sum(es) > 0 {
      assert PromoDiscount(p, b, t.totals) == 0;
      CappedAreDistinct(p, b, t.totals);
      SpreadingNothing(es, Quotas(es, 0, Sum(es)));
      AddingZeros(capped, PromoShares(es, Quotas(es, 0, Sum(es)), 0), t);
    }
  }

  /** Dropping promotions that took nothing off changes neither the discounts nor the applied ids. */
  lemma {:induction false} DropIdlePromos(ps: seq<Promotion>, b: Basket, t: Tally, keep: Promotion -> bool)
    requires DistinctIds(b.lines) && Covers(b, t)
    requires forall p | p in ps && p.id in ApplyAll(ps, b, t).ids :: keep(p)
    ensures ApplyAll(Filter(ps, keep), b, t) == ApplyAll(ps, b, t)
  {
    if ps != [] {
      var p := ps[0];
      var first := ApplyOne(p, b, t);
      var rest := ApplyAll(ps[1..], b, first.tally);
      ApplyOneCovers(p, b, t);
      DropIdlePromos(ps[1..], b, first.tally, keep);
      if keep(p) {
        var kept := Filter(ps[1..], keep);
        assert ([p] + kept)[0] == p && ([p] + kept)[1..] == kept;
      } else {
        assert p.id in first.ids ==> p.id in first.ids + rest.ids;
        IdlePromoIsIdentity(p, b, t);
      }
    }
  }

  // ---- how far discounts exceed line totals ----

  ghost predicate ValidPromo(p: Promotion) {
    p.promoType.PercentageOff? ==> p.promoType.percentBps <= BASIS_POINTS
  }

  ghost predicate Consistent(b: Basket, t: Tally) {
    && Covers(b, t)
    && forall l :: l in b.lines ==> t.totals[l.lineId] == Sub(l.lineTotal, t.discounts[l.lineId])
  }

  function ExcessOf(discounts: map<Uuid, nat>): BasketLine -> nat {
    (l: BasketLine) => Sub(Get(discounts, l.lineId), l.lineTotal)
  }

  /** Cents by which line discounts exceed line totals. */
  function Excess(lines: seq<BasketLine>, discounts: map<Uuid, nat>): nat {
    SumBy(lines, ExcessOf(discounts))
  }

  lemma DiscountFits(t: PromotionType, capped: seq<Capped>, totals: map<Uuid, nat>)
    requires t.PercentageOff? ==> t.percentBps <= BASIS_POINTS
    ensures DiscountOn(t, capped, totals) <= Sum(Eligibles(capped, totals))
  {
    if t.PercentageOff? {
      PercentFits(Sum(Eligibles(capped, totals)), t.percentBps);
    }
  }

  lemma PercentFits(cents: nat, bps: nat)
    requires bps <= BASIS_POINTS
    ensures 0 <= cents * bps / BASIS_POINTS <= cents
  {
    MulLe(cents, bps, BASIS_POINTS);
    Commute(cents, BASIS_POINTS);
    DivLe(cents * bps, BASIS_POINTS, cents);
  }

  lemma EligibleFits(c: Capped, totals: map<Uuid, nat>)
    requires c.eligible <= c.line.quantity
    ensures EligibleCents(c, totals) <= Get(totals, c.line.lineId)
  {
    if c.line.quantity > 0 {
      var total := Get(totals, c.line.lineId);
      MulLe(total, c.eligible, c.line.quantity);
      Commute(total, c.line.quantity);
      DivLe(total * c.eligible, c.line.quantity, total);
    }
  }

  /** What a split gives to line `id`. */
  function ShareOf(capped: seq<Capped>, shares: seq<nat>, id: Uuid): nat
    requires |shares| == |capped|
  {
    if capped == [] then 0
    else (if capped[0].line.lineId == id then shares[0] else 0) + ShareOf(capped[1..], shares[1..], id)
  }

  lemma {:induction false} AddSharesAt(capped: seq<Capped>, shares: seq<nat>, t: Tally, id: Uuid)
    requires |shares| == |capped|
    ensures var t' := AddShares(capped, shares, t);
            && Get(t'.discounts, id) == Get(t.discounts, id) + ShareOf(capped, shares, id)
            && Get(t'.totals, id) == Sub(Get(t.totals, id), ShareOf(capped, shares, id))
  {
    if capped != [] {
      AddSharesAt(capped[1..], shares[1..], AddShare(capped[0].line.lineId, shares[0], t), id);
    }
  }

  lemma {:induction false} NoShareElsewhere(capped: seq<Capped>, shares: seq<nat>, id: Uuid)
    requires |shares| == |capped|
    requires forall j :: 0 <= j < |capped| ==> capped[j].line.lineId != id
    ensures ShareOf(capped, shares, id) == 0
  {
    if capped != [] {
      NoShareElsewhere(capped[1..], shares[1..], id);
    }
  }

  /** Each capped line gets exactly its own share. */
  lemma {:induction false} ShareAt(capped: seq<Capped>, shares: seq<nat>, i: nat)
    requires DistinctCapped(capped) && |shares| == |capped| && i < |capped|
    ensures ShareOf(capped, shares, capped[i].line.lineId) == shares[i]
  {
    if i == 0 {
      NoShareElsewhere(capped[1..], shares[1..], capped[0].line.lineId);
    } else {
      ShareAt(capped[1..], shares[1..], i - 1);
    }
  }

  /** A split takes from a line no more than its total, except for the slack on the last line. */
  lemma ShareFits(capped: seq<Capped>, totals: map<Uuid, nat>, d: nat, id: Uuid)
    requires DistinctCapped(capped) && 0 < d <= Sum(Eligibles(capped, totals))
    requires forall i :: 0 <= i < |capped| ==> capped[i].eligible <= capped[i].line.quantity
    ensures capped != []
    ensures var es := Eligibles(capped, totals);
            ShareOf(capped, PromoShares(es, Quotas(es, d, Sum(es)), d), id)
              <= Get(totals, id) + if capped[|capped| - 1].line.lineId == id then Slack(|capped|) else 0
  {
    var es := Eligibles(capped, totals);
    var shares := PromoShares(es, Quotas(es, d, Sum(es)), d);
    assert capped != [] by {
      PromoSplit(es, d);
    }
    if i :| 0 <= i < |capped| && capped[i].line.lineId == id {
      ShareAt(capped, shares, i);
      OneShareFits(capped, totals, d, i);
    } else {
      NoShareElsewhere(capped, shares, id);
    }
  }

  lemma OneShareFits(capped: seq<Capped>, totals: map<Uuid, nat>, d: nat, i: nat)
    requires 0 < d <= Sum(Eligibles(capped, totals)) && i < |capped|
    requires capped[i].eligible <= capped[i].line.quantity
    ensures var es := Eligibles(capped, totals);
            PromoShares(es, Quotas(es, d, Sum(es)), d)[i]
              <= Get(totals, capped[i].line.lineId) + if i == |capped| - 1 then Slack(|capped|) else 0
  {
    PromoSplit(Eligibles(capped, totals), d);
    EligibleFits(capped[i], totals);
  }

  /** One line's excess may grow, no other line's does. */
  lemma {:induction false} ExcessGrowsOnOneLine(lines: seq<BasketLine>, discounts: map<Uuid, nat>,
                                                discounts': map<Uuid, nat>, id: Uuid, growth: nat)
    requires DistinctIds(lines)
    requires forall l :: l in lines ==>
      ExcessOf(discounts')(l) <= ExcessOf(discounts)(l) + if l.lineId == id then growth else 0
    ensures Excess(lines, discounts') <= Excess(lines, discounts) + growth
    ensures (forall l :: l in lines ==> l.lineId != id) ==> Excess(lines, discounts') <= Excess(lines, discounts)
  {
    if lines != [] {
      ExcessGrowsOnOneLine(lines[1..], discounts, discounts', id, growth);
      if lines[0].lineId == id {
        forall l | l in lines[1..] ensures l.lineId != id {
          var k :| 0 <= k < |lines[1..]| && lines[1..][k] == l;
          assert lines[k + 1] == l;
        }
      }
    }
  }

  lemma ShareKeepsConsistent(lineTotal: nat, discount: nat, share: nat)
    ensures Sub(Sub(lineTotal, discount), share) == Sub(lineTotal, discount + share)
    ensures Sub(discount + share, lineTotal) == Sub(discount, lineTotal) + Sub(share, Sub(lineTotal, discount))
  {
  }

  /** A promotion keeps the two maps consistent and adds at most the slack of its split to the excess. */
  lemma PromoExcess(p: Promotion, b: Basket, t: Tally)
    requires DistinctIds(b.lines) && Consistent(b, t) && ValidPromo(p)
    ensures var first := ApplyOne(p, b, t);
      && Consistent(b, first.tally)
      && Excess(b.lines, first.tally.discounts)
           <= Excess(b.lines, t.discounts) + |first.ids| * Slack(|b.lines|)
  {
    var first := ApplyOne(p, b, t);
    var capped := CappedLines(p, b, t.totals);
    var es := Eligibles(capped, t.totals);
    var d := PromoDiscount(p, b, t.totals);
    if !Runs(p, b) || d == 0 {
      assert first.ids == [];
      IdlePromoIsIdentity(p, b, t);
    } else {
      DiscountFits(p.promoType, capped, t.totals);
      SpreadExcess(p, b, t, d);
    }
  }

  lemma LineExcess(l: BasketLine, t: Tally, capped: seq<Capped>, shares: seq<nat>, slack: nat)
    requires |shares| == |capped| && l.lineId in t.discounts && l.lineId in t.totals
    requires t.totals[l.lineId] == Sub(l.lineTotal, t.discounts[l.lineId])
    requires ShareOf(capped, shares, l.lineId) <= t.totals[l.lineId] + slack
    ensures var t', id := AddShares(capped, shares, t), l.lineId;
      && id in t'.discounts && id in t'.totals && t'.totals[id] == Sub(l.lineTotal, t'.discounts[id])
      && ExcessOf(t'.discounts)(l) <= ExcessOf(t.discounts)(l) + slack
  {
    AddSharesCovers(capped, shares, t);
    AddSharesAt(capped, shares, t, l.lineId);
    ShareKeepsConsistent(l.lineTotal, t.discounts[l.lineId], ShareOf(capped, shares, l.lineId));
  }

  lemma SpreadExcess(p: Promotion, b: Basket, t: Tally, d: nat)
    requires DistinctIds(b.lines) && Consistent(b, t)
    requires 0 < d <= Sum(Eligibles(CappedLines(p, b, t.totals), t.totals))
    ensures var t' := Spread(CappedLines(p, b, t.totals), d, t);
      && Consistent(b, t')
      && Excess(b.lines, t'.discounts) <= Excess(b.lines, t.discounts) + Slack(|b.lines|)
  {
    var capped := CappedLines(p, b, t.totals);
    var es := Eligibles(capped, t.totals);
    var shares := PromoShares(es, Quotas(es, d, Sum(es)), d);
    var t' := AddShares(capped, shares, t);
    CappedAreDistinct(p, b, t.totals);
    ShareFits(capped, t.totals, d, 0);
    AddSharesCovers(capped, shares, t);
    var last := capped[|capped| - 1].line.lineId;
    forall l | l in b.lines
      ensures t'.totals[l.lineId] == Sub(l.lineTotal, t'.discounts[l.lineId])
      ensures ExcessOf(t'.discounts)(l)
           <= ExcessOf(t.discounts)(l) + if l.lineId == last then Slack(|b.lines|) else 0
    {
      ShareFits(capped, t.totals, d, l.lineId);
      LineExcess(l, t, capped, shares, if l.lineId == last then Slack(|b.lines|) else 0);
    }
    ExcessGrowsOnOneLine(b.lines, t.discounts, t'.discounts, last, Slack(|b.lines|));
  }

  lemma SlackPerId(a: nat, b: nat, slack: nat)
    ensures (a + b) * slack == a * slack + b * slack
  {
    MulAdd(slack, a, b);
    Commute(slack, a);
    Commute(slack, b);
    Commute(slack, a + b);
  }

  lemma AddExcess(x: nat, y: nat, z: nat, a: nat, b: nat, slack: nat)
    requires y <= x + a * slack && z <= y + b * slack
    ensures z <= x + (a + b) * slack
  {
    SlackPerId(a, b, slack);
  }

  lemma {:induction false} RunExcess(ps: seq<Promotion>, b: Basket, t: Tally)
    requires DistinctIds(b.lines) && Consistent(b, t) && forall p :: p in ps ==> ValidPromo(p)
    ensures var run := ApplyAll(ps, b, t);
      && Consistent(b, run.tally)
      && Excess(b.lines, run.tally.discounts) <= Excess(b.lines, t.discounts) + |run.ids| * Slack(|b.lines|)
  {
    if ps != [] {
      PromoExcess(ps[0], b, t);
      var first := ApplyOne(ps[0], b, t);
      RunExcess(ps[1..], b, first.tally);
      var rest := ApplyAll(ps[1..], b, first.tally);
      AddExcess(Excess(b.lines, t.discounts), Excess(b.lines, first.tally.discounts),
                Excess(b.lines, rest.tally.discounts), |first.ids|, |rest.ids|, Slack(|b.lines|));
    }
  }

  /** Over all promotions, discounts exceed line totals by at most the slack of one split per applied promotion. */
  lemma PromotionsExcess(ps: seq<Promotion>, b: Basket)
    requires DistinctIds(b.lines) && forall p :: p in ps ==> ValidPromo(p)
    ensures var run := ApplyPromos(ps, b);
      && Covers(b, run.tally)
      && Excess(b.lines, run.tally.discounts) <= |run.ids| * Slack(|b.lines|)
  {
    DistinctIsInjective(b.lines);
    InitialTallyAt(b.lines);
    var t := InitialTally(b.lines);
    SortMembers(ps, PriorityKey());
    RunExcess(SortBy(ps, PriorityKey()), b, t);
    NoExcessAtFirst(b.lines, t.discounts);
  }

  lemma {:induction false} NoExcessAtFirst(lines: seq<BasketLine>, discounts: map<Uuid, nat>)
    requires forall l :: l in lines ==> Get(discounts, l.lineId) == 0
    ensures Excess(lines, discounts) == 0
  {
    if lines != [] {
      NoExcessAtFirst(lines[1..], discounts);
    }
  }

  // ---- what a promotion takes off ----

  function DiscountAt(discounts: map<Uuid, nat>): BasketLine -> nat {
    (l: BasketLine) => Get(discounts, l.lineId)
  }

  function TotalDiscount(lines: seq<BasketLine>, discounts: map<Uuid, nat>): nat {
    SumBy(lines, DiscountAt(discounts))
  }

  lemma {:induction false} OtherLinesKeepDiscount(lines: seq<BasketLine>, discounts: map<Uuid, nat>, id: Uuid, cents: nat)
    requires forall i :: 0 <= i < |lines| ==> lines[i].lineId != id
    ensures TotalDiscount(lines, discounts[id := cents]) == TotalDiscount(lines, discounts)
  {
    if lines != [] {
      OtherLinesKeepDiscount(lines[1..], discounts, id, cents);
    }
  }

  lemma {:induction false} OneShareGrows(lines: seq<BasketLine>, discounts: map<Uuid, nat>, at: nat, share: nat)
    requires DistinctIds(lines) && at < |lines|
    ensures var id := lines[at].lineId;
            TotalDiscount(lines, discounts[id := Get(discounts, id) + share]) == TotalDiscount(lines, discounts) + share
  {
    if at == 0 {
      OtherLinesKeepDiscount(lines[1..], discounts, lines[0].lineId, Get(discounts, lines[0].lineId) + share);
    } else {
      OneShareGrows(lines[1..], discounts, at - 1, share);
    }
  }

  /** Shares are added to the lines' discounts without loss. */
  lemma {:induction false} SharesGrow(lines: seq<BasketLine>, capped: seq<Capped>, shares: seq<nat>, t: Tally)
    requires DistinctIds(lines) && |shares| == |capped|
    requires forall i :: 0 <= i < |capped| ==> capped[i].line in lines
    ensures TotalDiscount(lines, AddShares(capped, shares, t).discounts) == TotalDiscount(lines, t.discounts) + Sum(shares)
  {
    if capped != [] {
      var at :| 0 <= at < |lines| && lines[at] == capped[0].line;
      OneShareGrows(lines, t.discounts, at, shares[0]);
      SharesGrow(lines, capped[1..], shares[1..], AddShare(capped[0].line.lineId, shares[0], t));
    }
  }

  /**
    A promotion takes its whole discount off the lines, to the cent, unless the last capped
    line has no eligible cents; then at most the slack of the split is lost.
   */
  lemma PromoTakesOffItsDiscount(p: Promotion, b: Basket, t: Tally)
    requires DistinctIds(b.lines) && ValidPromo(p) && Runs(p, b) && PromoDiscount(p, b, t.totals) > 0
    ensures var d, es := PromoDiscount(p, b, t.totals), Eligibles(CappedLines(p, b, t.totals), t.totals);
            var before, after := TotalDiscount(b.lines, t.discounts), TotalDiscount(b.lines, ApplyOne(p, b, t).tally.discounts);
      && es != []
      && (es[|es| - 1] > 0 ==> after == before + d)
      && before + d - Slack(|es|) <= after <= before + d
  {
    var capped := CappedLines(p, b, t.totals);
    var es, d := Eligibles(capped, t.totals), PromoDiscount(p, b, t.totals);
    DiscountFits(p.promoType, capped, t.totals);
    PromoSplit(es, d);
    CappedAreDistinct(p, b, t.totals);
    SharesGrow(b.lines, capped, PromoShares(es, Quotas(es, d, Sum(es)), d), t);
  }

  // ---- when a promotion discounts a line beyond what it still costs ----

  /** What the promotion takes off each line is at most what the line still costs. */
  ghost predicate WithinLines(b: Basket, before: Tally, after: Tally) {
    forall l :: l in b.lines ==>
      Get(after.discounts, l.lineId) - Get(before.discounts, l.lineId) <= Get(before.totals, l.lineId)
  }

  lemma WithinIffLast(b: Basket, t: Tally, capped: seq<Capped>, d: nat)
    requires DistinctCapped(capped) && 0 < d <= Sum(Eligibles(capped, t.totals))
    requires forall i :: 0 <= i < |capped| ==> capped[i].line in b.lines && capped[i].eligible <= capped[i].line.quantity
    ensures capped != []
    ensures var es, n := Eligibles(capped, t.totals), |capped| - 1;
            var shares := PromoShares(es, Quotas(es, d, Sum(es)), d);
            WithinLines(b, t, AddShares(capped, shares, t)) <==> shares[n] <= Get(t.totals, capped[n].line.lineId)
  {
    var es, n := Eligibles(capped, t.totals), |capped| - 1;
    var shares := PromoShares(es, Quotas(es, d, Sum(es)), d);
    var after := AddShares(capped, shares, t);
    ShareAt(capped, shares, n);
    AddSharesAt(capped, shares, t, capped[n].line.lineId);
    if shares[n] <= Get(t.totals, capped[n].line.lineId) {
      forall l | l in b.lines
        ensures Get(after.discounts, l.lineId) - Get(t.discounts, l.lineId) <= Get(t.totals, l.lineId)
      {
        AddSharesAt(capped, shares, t, l.lineId);
        if i :| 0 <= i < |capped| && capped[i].line.lineId == l.lineId {
          ShareAt(capped, shares, i);
          if i < n {
            OneShareFits(capped, t.totals, d, i);
          }
        } else {
          NoShareElsewhere(capped, shares, l.lineId);
        }
      }
    }
  }

  lemma AppliedShares(p: Promotion, b: Basket, t: Tally, capped: seq<Capped>, es: seq<nat>, d: nat)
    requires Runs(p, b) && capped == CappedLines(p, b, t.totals) && es == Eligibles(capped, t.totals)
    requires d == PromoDiscount(p, b, t.totals) && Sum(es) > 0
    ensures ApplyOne(p, b, t).tally == AddShares(capped, PromoShares(es, Quotas(es, d, Sum(es)), d), t)
  {
  }

  lemma DiscountIsSpread(p: Promotion, b: Basket, totals: map<Uuid, nat>)
    requires ValidPromo(p) && PromoDiscount(p, b, totals) > 0
    ensures PromoDiscount(p, b, totals) <= Sum(Eligibles(CappedLines(p, b, totals), totals))
  {
    DiscountFits(p.promoType, CappedLines(p, b, totals), totals);
  }

  /** Whether the last capped line takes no more than it still costs, told from the state before. */
  predicate LastCanTake(capped: seq<Capped>, totals: map<Uuid, nat>, d: nat) {
    var es, n := Eligibles(capped, totals), |capped| - 1;
    capped != [] && Sum(es) > 0 && (es[n] == 0 || d - FrontQuotas(es, d) <= Get(totals, capped[n].line.lineId))
  }

  lemma LastTakes(capped: seq<Capped>, totals: map<Uuid, nat>, d: nat)
    requires 0 < d <= Sum(Eligibles(capped, totals))
    ensures capped != []
    ensures var es, n := Eligibles(capped, totals), |capped| - 1;
      LastCanTake(capped, totals, d) <==>
        PromoShares(es, Quotas(es, d, Sum(es)), d)[n] <= Get(totals, capped[n].line.lineId)
  {
    LastShareIs(Eligibles(capped, totals), d);
  }

  /**
    A promotion takes no line below zero exactly when its last capped line has no eligible
    cents, or still costs what the quotas of the others leave of the discount.
   */
  lemma StaysWithinLines(p: Promotion, b: Basket, t: Tally)
    requires DistinctIds(b.lines) && ValidPromo(p) && Runs(p, b) && PromoDiscount(p, b, t.totals) > 0
    ensures WithinLines(b, t, ApplyOne(p, b, t).tally)
       <==> LastCanTake(CappedLines(p, b, t.totals), t.totals, PromoDiscount(p, b, t.totals))
  {
    var capped, d := CappedLines(p, b, t.totals), PromoDiscount(p, b, t.totals);
    DiscountIsSpread(p, b, t.totals);
    CappedAreDistinct(p, b, t.totals);
    LastTakes(capped, t.totals, d);
    WithinIffLast(b, t, capped, d);
    AppliedShares(p, b, t, capped, Eligibles(capped, t.totals), d);
  }

  // ---- three lines of 100 cents with 299 cents off ----

  const OFF_299: Promotion := Promotion(7, None, FixedAmountOff(299), 0, 0, None, [], [])

  function Hundred(id: Uuid): BasketLine { BasketLine(id, 1, 1, 100) }

  function Hundreds(): Basket { Basket([Hundred(1), Hundred(2), Hundred(3)], 300, map[], 0) }

  function HundredsCapped(): seq<Capped> { [Capped(Hundred(1), 1), Capped(Hundred(2), 1), Capped(Hundred(3), 1)] }

  lemma HundredsSorted()
    ensures Applicable(OFF_299, Hundreds()) == Hundreds().lines
  {
    var lines := Hundreds().lines;
    FilterAll(lines, Applies(OFF_299, Hundreds()));
    assert lines[1..] == [Hundred(2), Hundred(3)] && lines[1..][1..] == [Hundred(3)] && lines[1..][1..][1..] == [];
    assert SortBy([Hundred(3)], LineKey()) == [Hundred(3)];
    assert SortBy([Hundred(2), Hundred(3)], LineKey()) == [Hundred(2), Hundred(3)];
  }

  lemma HundredsAreCapped(totals: map<Uuid, nat>)
    requires Get(totals, 1) == Get(totals, 2) == Get(totals, 3) == 100
    ensures CappedLines(OFF_299, Hundreds(), totals) == HundredsCapped()
    ensures Eligibles(HundredsCapped(), totals) == [100, 100, 100] && Sum([100, 100, 100]) == 300
  {
    HundredsSorted();
    var lines := Hundreds().lines;
    assert MaxUnits(OFF_299, Hundreds()) == U32_MAX;
    assert lines[1..] == [Hundred(2), Hundred(3)] && lines[1..][1..] == [Hundred(3)] && lines[1..][1..][1..] == [];
    assert CapLines([Hundred(3)], totals, U32_MAX - 2) == [Capped(Hundred(3), 1)];
    assert CapLines([Hundred(2), Hundred(3)], totals, U32_MAX - 1) == [Capped(Hundred(2), 1), Capped(Hundred(3), 1)];
    var es: seq<nat> := [100, 100, 100];
    assert es[1..] == [100, 100] && es[1..][1..] == [100] && es[1..][1..][1..] == [];
    assert Sum([100]) == 100 && Sum([100, 100]) == 200;
  }

  /** The split of 299 cents over three lines of 100 cents. */
  lemma SharesOf299()
    ensures PromoShares([100, 100, 100], Quotas([100, 100, 100], 299, 300), 299) == [99, 99, 101]
  {
    var es: seq<nat> := [100, 100, 100];
    assert es[1..] == [100, 100] && es[2..] == [100] && es[3..] == [];
    QuotaAt(es, 299, 300, 0);
    QuotaAt(es, 299, 300, 1);
    QuotaAt(es, 299, 300, 2);
    assert Quotas(es, 299, 300) == [99, 99, 99];
    var q: seq<nat> := [99, 99, 99];
    assert q[1..] == [99, 99] && q[1..][1..] == [99] && es[1..][1..] == [100];
    assert PromoShares([100], [99], 101) == [101];
    assert PromoShares([100, 100], [99, 99], 200) == [99] + PromoShares([100], [99], 101);
  }

  lemma HundredsSpread(t: Tally)
    requires Get(t.totals, 1) == Get(t.totals, 2) == Get(t.totals, 3) == 100
    ensures ApplyOne(OFF_299, Hundreds(), t) == Outcome(AddShares(HundredsCapped(), [99, 99, 101], t), [7])
  {
    HundredsAreCapped(t.totals);
    SharesOf299();
  }

  lemma HundredsAdded(t: Tally)
    ensures var t' := AddShares(HundredsCapped(), [99, 99, 101], t);
      && Get(t'.discounts, 1) == Get(t.discounts, 1) + 99
      && Get(t'.discounts, 2) == Get(t.discounts, 2) + 99
      && Get(t'.discounts, 3) == Get(t.discounts, 3) + 101
  {
    var capped := HundredsCapped();
    var shares: seq<nat> := [99, 99, 101];
    AddSharesAt(capped, shares, t, 1);
    AddSharesAt(capped, shares, t, 2);
    AddSharesAt(capped, shares, t, 3);
    ShareAt(capped, shares, 0);
    ShareAt(capped, shares, 1);
    ShareAt(capped, shares, 2);
  }

  lemma OnePromo(p: Promotion, b: Basket)
    ensures ApplyPromos([p], b) == ApplyOne(p, b, InitialTally(b.lines))
  {
    var t := InitialTally(b.lines);
    var first, ps := ApplyOne(p, b, t), [p];
    assert ps[1..] == [] && SortBy(ps, PriorityKey()) == ps;
    assert ApplyAll([], b, first.tally) == Outcome(first.tally, []);
    assert ApplyAll(ps, b, t) == Outcome(first.tally, first.ids + []);
    assert first.ids + [] == first.ids;
  }

  /** A real basket: the promotion takes 99, 99 and 101 cents off its lines, and is reported as applied. */
  lemma LastLineOverDiscounted()
    ensures var run := ApplyPromos([OFF_299], Hundreds());
      && Get(run.tally.discounts, 1) == 99 && Get(run.tally.discounts, 2) == 99 && Get(run.tally.discounts, 3) == 101
      && run.ids == [7]
  {
    var lines := Hundreds().lines;
    var t := InitialTally(lines);
    DistinctIsInjective(lines);
    InitialTallyAt(lines);
    assert Hundred(1) in lines && Hundred(2) in lines && Hundred(3) in lines;
    OnePromo(OFF_299, Hundreds());
    HundredsSpread(t);
    HundredsAdded(t);
  }
}
