/**
  Buy x, get y: the units given away are the cheapest the customer could have been given.

  The reference is the set of all ways to choose the free units; the greedy walk over the
  price-sorted units is optimal among them. Optimality is shown with a threshold price: any
  choice costs at least `price * free` less what every unit below the threshold saves, and
  the greedy walk meets that bound when the threshold is the last price it gives away.
 */
module Bundles {
  import opened Seqs
  import opened Division
  import opened Pricing
  import opened Promotions

  /** A way to choose `free` units: how many of each kind, none more than there are. */
  ghost predicate FreeChoice(units: seq<Units>, takes: seq<nat>, free: nat) {
    && |takes| == |units|
    && (forall i :: 0 <= i < |units| ==> takes[i] <= units[i].qty)
    && Sum(takes) == free
  }

  ghost function ChoicePrice(units: seq<Units>, takes: seq<nat>): nat
    requires |takes| == |units|
  {
    if units == [] then 0 else units[0].price * takes[0] + ChoicePrice(units[1..], takes[1..])
  }

  /** What `u` saves below the threshold price. */
  function Saving(threshold: nat): Units -> nat {
    (u: Units) => u.qty * Sub(threshold, u.price)
  }

  lemma {:induction false} AnyChoiceCosts(units: seq<Units>, takes: seq<nat>, free: nat, threshold: nat)
    requires FreeChoice(units, takes, free)
    ensures threshold * free <= ChoicePrice(units, takes) + SumBy(units, Saving(threshold))
  {
    if units == [] {
      assert threshold * 0 == 0;
    } else {
      var u, take := units[0], takes[0];
      AnyChoiceCosts(units[1..], takes[1..], free - take, threshold);
      MulAdd(threshold, take, free - take);
      OneKindCosts(u, take, threshold);
    }
  }

  lemma OneKindCosts(u: Units, take: nat, threshold: nat)
    requires take <= u.qty
    ensures threshold * take <= u.price * take + Saving(threshold)(u)
  {
    if threshold <= u.price {
      MulLe(take, threshold, u.price);
    } else {
      MulLe(threshold - u.price, take, u.qty);
      MulSub(take, threshold, u.price);
      Commute(u.qty, threshold - u.price);
      Commute(take, threshold - u.price);
      Commute(take, threshold);
      Commute(take, u.price);
    }
    Commute(take, threshold);
    Commute(take, u.price);
  }

  lemma {:induction false} NoSavingAbove(units: seq<Units>, threshold: nat)
    requires forall i :: 0 <= i < |units| ==> threshold <= units[i].price
    ensures SumBy(units, Saving(threshold)) == 0
  {
    if units != [] {
      NoSavingAbove(units[1..], threshold);
      assert units[0].qty * 0 == 0;
    }
  }

  /** The greedy walk over sorted units meets the threshold bound at the last price it gives away. */
  lemma {:induction false} GreedyMeetsBound(sorted: seq<Units>, free: nat) returns (threshold: nat)
    requires SortedBy(sorted, PriceKey()) && 0 < free <= SumBy(sorted, Qty())
    ensures FirstUnits(sorted, free) + SumBy(sorted, Saving(threshold)) == threshold * free
    ensures exists i :: 0 <= i < |sorted| && sorted[i].price == threshold
  {
    var u, rest := sorted[0], sorted[1..];
    if free <= u.qty {
      threshold := u.price;
      NothingFree(rest);
      forall i | 0 <= i < |sorted| ensures threshold <= sorted[i].price {
        assert PriceKey()(sorted[0]) <= PriceKey()(sorted[i]) || i == 0;
      }
      NoSavingAbove(sorted, threshold);
    } else {
      TailOf(sorted, PriceKey());
      threshold := GreedyMeetsBound(rest, free - u.qty);
      var i :| 0 <= i < |rest| && rest[i].price == threshold;
      assert PriceKey()(sorted[0]) <= PriceKey()(sorted[i + 1]);
      TakenWhole(u, free, threshold);
    }
  }

  lemma TakenWhole(u: Units, free: nat, threshold: nat)
    requires u.qty <= free && u.price <= threshold
    ensures u.price * u.qty + Saving(threshold)(u) + threshold * (free - u.qty) == threshold * free
  {
    MulAdd(threshold, u.qty, free - u.qty);
    MulSub(u.qty, threshold, u.price);
    Commute(u.qty, threshold);
    Commute(u.qty, u.price);
  }

  lemma {:induction false} GreedyChoice(sorted: seq<Units>, free: nat) returns (takes: seq<nat>)
    requires free <= SumBy(sorted, Qty())
    ensures FreeChoice(sorted, takes, free) && ChoicePrice(sorted, takes) == FirstUnits(sorted, free)
  {
    if sorted == [] {
      takes := [];
    } else {
      var take := Min(sorted[0].qty, free);
      var rest := GreedyChoice(sorted[1..], free - take);
      takes := [take] + rest;
    }
  }

  /** A choice among sorted units is a choice, at the same price, among the unsorted ones. */
  lemma {:induction false} UnsortChoice(units: seq<Units>, sortedTakes: seq<nat>, free: nat) returns (takes: seq<nat>)
    requires FreeChoice(SortBy(units, PriceKey()), sortedTakes, free)
    ensures FreeChoice(units, takes, free)
    ensures ChoicePrice(units, takes) == ChoicePrice(SortBy(units, PriceKey()), sortedTakes)
  {
    if units == [] {
      takes := [];
    } else {
      var rest := SortBy(units[1..], PriceKey());
      var take, restTakes := RemoveFromChoice(units[0], rest, sortedTakes, free);
      var tail := UnsortChoice(units[1..], restTakes, free - take);
      takes := [take] + tail;
    }
  }

  lemma {:induction false} RemoveFromChoice(u: Units, units: seq<Units>, takes: seq<nat>, free: nat)
    returns (take: nat, rest: seq<nat>)
    requires FreeChoice(InsertBy(u, units, PriceKey()), takes, free)
    ensures take <= u.qty && take <= free && FreeChoice(units, rest, free - take)
    ensures ChoicePrice(InsertBy(u, units, PriceKey()), takes) == u.price * take + ChoicePrice(units, rest)
  {
    if units == [] || u.price <= units[0].price {
      take, rest := takes[0], takes[1..];
      assert ([u] + units)[1..] == units;
    } else {
      var inserted := InsertBy(u, units, PriceKey());
      assert inserted[1..] == InsertBy(u, units[1..], PriceKey());
      var r;
      take, r := RemoveFromChoice(u, units[1..], takes[1..], free - takes[0]);
      rest := [takes[0]] + r;
    }
  }

  /** The cheapest way to choose the free units, whatever the order of the units. */
  lemma GreedyIsCheapest(units: seq<Units>, free: nat)
    requires free <= SumBy(units, Qty())
    ensures forall takes | FreeChoice(units, takes, free) ::
              FirstUnits(SortBy(units, PriceKey()), free) <= ChoicePrice(units, takes)
    ensures exists takes :: FreeChoice(units, takes, free)
              && FirstUnits(SortBy(units, PriceKey()), free) == ChoicePrice(units, takes)
  {
    var sorted := SortBy(units, PriceKey());
    SumBySort(units, PriceKey(), Qty());
    var greedy := GreedyChoice(sorted, free);
    var takes := UnsortChoice(units, greedy, free);
    if free == 0 {
      NothingFree(sorted);
    } else {
      SortByFacts(units, PriceKey());
      var threshold := GreedyMeetsBound(sorted, free);
      SumBySort(units, PriceKey(), Saving(threshold));
      forall takes | FreeChoice(units, takes, free)
        ensures FirstUnits(sorted, free) <= ChoicePrice(units, takes)
      {
        AnyChoiceCosts(units, takes, free, threshold);
      }
    }
  }

  lemma FreeUnitsFit(buy: U32, get: U32, total: nat)
    ensures FreeUnits(buy, get, total) <= total
  {
    var bundle := SatAdd(buy, get);
    if bundle > 0 {
      DivBounds(total, bundle);
      MulLe(total / bundle, get, bundle);
      Commute(total / bundle, bundle);
    }
  }

  function Worth(): Units -> nat { (u: Units) => u.price * u.qty }

  lemma {:induction false} FirstUnitsFit(units: seq<Units>, free: nat)
    ensures FirstUnits(units, free) <= SumBy(units, Worth())
  {
    if units != [] {
      var take := Min(units[0].qty, free);
      MulLe(units[0].price, take, units[0].qty);
      FirstUnitsFit(units[1..], free - take);
    }
  }

  lemma {:induction false} UnitsAreWorth(capped: seq<Capped>, totals: map<Uuid, nat>)
    ensures SumBy(EligibleUnits(capped, totals), Worth()) <= Sum(Eligibles(capped, totals))
  {
    if capped != [] {
      UnitsAreWorth(capped[1..], totals);
      var es := Eligibles(capped, totals);
      assert es[1..] == Eligibles(capped[1..], totals);
      if Priced(capped[0], totals) {
        var u := Units(UnitPrice(capped[0], totals), capped[0].eligible);
        var rest := EligibleUnits(capped[1..], totals);
        assert ([u] + rest)[1..] == rest;
        DivBounds(EligibleCents(capped[0], totals), capped[0].eligible);
        Commute(u.price, u.qty);
      }
    }
  }

  /** At most the promotion's unit cap is ever eligible, so the 32-bit unit sums cannot overflow. */
  lemma {:induction false} EligibleUnitsWithinCap(lines: seq<BasketLine>, totals: map<Uuid, nat>, remaining: nat)
    ensures SumBy(EligibleUnits(CapLines(lines, totals, remaining), totals), Qty()) <= remaining
  {
    if lines != [] {
      if Get(totals, lines[0].lineId) == 0 {
        EligibleUnitsWithinCap(lines[1..], totals, remaining);
      } else {
        var eligible := Min(lines[0].quantity, remaining);
        EligibleUnitsWithinCap(lines[1..], totals, remaining - eligible);
        var first := Capped(lines[0], eligible);
        var rest := if remaining == eligible then [] else CapLines(lines[1..], totals, remaining - eligible);
        assert ([first] + rest)[1..] == rest;
        if Priced(first, totals) {
          var u := Units(UnitPrice(first, totals), eligible);
          assert ([u] + EligibleUnits(rest, totals))[1..] == EligibleUnits(rest, totals);
        }
      }
    }
  }

  /**
    The free units always fit, they are the cheapest of the eligible units, and capping the
    discount at the eligible cents never changes it.
   */
  lemma CheapestOfEligible(p: Promotion, b: Basket, totals: map<Uuid, nat>)
    requires p.promoType.BuyXGetY?
    ensures var units := EligibleUnits(CappedLines(p, b, totals), totals);
            var free := FreeUnits(p.promoType.buyQuantity, p.promoType.getQuantity, SumBy(units, Qty()));
            && SumBy(units, Qty()) <= U32_MAX
            && free <= SumBy(units, Qty())
            && (forall takes | FreeChoice(units, takes, free) ::
                  PromoDiscount(p, b, totals) <= ChoicePrice(units, takes))
            && (exists takes :: FreeChoice(units, takes, free)
                  && PromoDiscount(p, b, totals) == ChoicePrice(units, takes))
  {
    var capped := CappedLines(p, b, totals);
    var units := EligibleUnits(capped, totals);
    var free := FreeUnits(p.promoType.buyQuantity, p.promoType.getQuantity, SumBy(units, Qty()));
    EligibleUnitsWithinCap(Applicable(p, b), totals, MaxUnits(p, b));
    FreeUnitsFit(p.promoType.buyQuantity, p.promoType.getQuantity, SumBy(units, Qty()));
    GreedyIsCheapest(units, free);
    FirstUnitsFit(SortBy(units, PriceKey()), free);
    SumBySort(units, PriceKey(), Worth());
    UnitsAreWorth(capped, totals);
  }
}
