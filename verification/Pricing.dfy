/** Tax on a line, in whole cents. */
module Pricing {
  import opened Seqs
  import opened Division

  type Uuid = nat

  /** What the source falls back to for an item it cannot find in the catalog. */
  const NIL_UUID: Uuid := 0

  const BASIS_POINTS: nat := 10000

  datatype TaxRule = TaxRule(taxCategoryId: Uuid, rateBps: nat, inclusive: bool)

  datatype LineTax = LineTax(taxCents: nat, inclusive: bool)

  function ApplyTax(amount: nat, rateBps: nat, inclusive: bool): (tax: nat)
    ensures inclusive ==> tax <= amount
  {
    if inclusive then
      InclusiveNetFits(amount, rateBps);
      amount - amount * BASIS_POINTS / (BASIS_POINTS + rateBps)
    else
      amount * rateBps / BASIS_POINTS
  }

  lemma InclusiveNetFits(amount: nat, rateBps: nat)
    ensures 0 <= amount * BASIS_POINTS / (BASIS_POINTS + rateBps) <= amount
  {
    assert amount * BASIS_POINTS <= (BASIS_POINTS + rateBps) * amount;
    DivLe(amount * BASIS_POINTS, BASIS_POINTS + rateBps, amount);
  }

  function FindRule(rules: seq<TaxRule>, category: Uuid): Option<TaxRule> {
    if rules == [] then None
    else if rules[0].taxCategoryId == category then Some(rules[0])
    else FindRule(rules[1..], category)
  }

  function TaxForLine(amount: nat, category: Uuid, rules: seq<TaxRule>): (tax: LineTax)
    ensures tax.inclusive ==> tax.taxCents <= amount
  {
    match FindRule(rules, category)
    case Some(rule) => LineTax(ApplyTax(amount, rule.rateBps, rule.inclusive), rule.inclusive)
    case None => LineTax(0, false)
  }

  // ---- which rule taxes a line, and how much ----

  /** Rule i is the first for the category. */
  ghost predicate FirstRule(rules: seq<TaxRule>, category: Uuid, i: int) {
    && 0 <= i < |rules| && rules[i].taxCategoryId == category
    && forall j :: 0 <= j < i ==> rules[j].taxCategoryId != category
  }

  ghost predicate NoRule(rules: seq<TaxRule>, category: Uuid) {
    forall j :: 0 <= j < |rules| ==> rules[j].taxCategoryId != category
  }

  lemma {:induction false} FoundRule(rules: seq<TaxRule>, category: Uuid)
    ensures forall i :: FirstRule(rules, category, i) ==> FindRule(rules, category) == Some(rules[i])
    ensures NoRule(rules, category) ==> FindRule(rules, category) == None
  {
    if rules != [] && rules[0].taxCategoryId != category {
      FoundRule(rules[1..], category);
      forall i | FirstRule(rules, category, i) ensures FindRule(rules, category) == Some(rules[i]) {
        assert FirstRule(rules[1..], category, i - 1);
      }
    }
  }

  /** A line is taxed by the first rule of its category, and not at all without one. */
  lemma TaxedByFirstRule(amount: nat, category: Uuid, rules: seq<TaxRule>)
    ensures forall i :: FirstRule(rules, category, i) ==>
      TaxForLine(amount, category, rules)
        == LineTax(ApplyTax(amount, rules[i].rateBps, rules[i].inclusive), rules[i].inclusive)
    ensures NoRule(rules, category) ==> TaxForLine(amount, category, rules) == LineTax(0, false)
  {
    FoundRule(rules, category);
  }

  /** The tax added to a price is the rounded-down share of the price. */
  lemma ExclusiveTaxIsFloor(amount: nat, rateBps: nat)
    ensures var tax := ApplyTax(amount, rateBps, false);
            BASIS_POINTS * tax <= amount * rateBps < BASIS_POINTS * (tax + 1)
  {
    DivBounds(amount * rateBps, BASIS_POINTS);
  }

  /** The tax contained in a price is the rounded-up share of the price. */
  lemma InclusiveTaxIsCeiling(amount: nat, rateBps: nat)
    ensures ApplyTax(amount, rateBps, true) == CeilDiv(amount * rateBps, BASIS_POINTS + rateBps)
  {
    var d := BASIS_POINTS + rateBps;
    var net := amount * BASIS_POINTS / d;
    DivBounds(amount * BASIS_POINTS, d);
    InclusiveNetFits(amount, rateBps);
    var tax := amount - net;
    assert d * tax == d * amount - d * net;
    assert d * amount == amount * BASIS_POINTS + amount * rateBps;
    CeilIs(amount * rateBps, d, tax);
  }

  /**
    Adding exclusive tax to a net amount and extracting inclusive tax from the result at
    the same rate gives the same tax, or one cent more exactly when the tax was rounded.
   */
  lemma ExtractAfterAdding(net: nat, rateBps: nat)
    ensures var tax := ApplyTax(net, rateBps, false);
            ApplyTax(net + tax, rateBps, true)
              == if net * rateBps % BASIS_POINTS == 0 then tax else tax + 1
  {
    var d := BASIS_POINTS + rateBps;
    var tax := net * rateBps / BASIS_POINTS;
    var f := net * rateBps % BASIS_POINTS;
    assert net * rateBps == BASIS_POINTS * tax + f;
    var scaled := (net + tax) * BASIS_POINTS;
    assert scaled == d * net - f;
    if f == 0 {
      DivIs(scaled, d, net);
    } else {
      assert d * (net - 1) == d * net - d;
      DivIs(scaled, d, net - 1);
    }
  }

  function TaxOfParts(parts: seq<nat>, rateBps: nat, inclusive: bool): nat {
    if parts == [] then 0
    else ApplyTax(parts[0], rateBps, inclusive) + TaxOfParts(parts[1..], rateBps, inclusive)
  }

  lemma TaxOfTwo(a: nat, b: nat, rateBps: nat, inclusive: bool)
    ensures var whole := ApplyTax(a + b, rateBps, inclusive);
            var parts := ApplyTax(a, rateBps, inclusive) + ApplyTax(b, rateBps, inclusive);
            if inclusive then whole <= parts <= whole + 1 else parts <= whole <= parts + 1
  {
    if inclusive {
      FloorOfTwo(a * BASIS_POINTS, b * BASIS_POINTS, BASIS_POINTS + rateBps);
      assert (a + b) * BASIS_POINTS == a * BASIS_POINTS + b * BASIS_POINTS;
    } else {
      FloorOfTwo(a * rateBps, b * rateBps, BASIS_POINTS);
      assert (a + b) * rateBps == a * rateBps + b * rateBps;
    }
  }

  lemma FloorOfTwo(a: nat, b: nat, d: nat)
    requires d > 0
    ensures a / d + b / d <= (a + b) / d <= a / d + b / d + 1
  {
    DivBounds(a, d);
    DivBounds(b, d);
    var q := a / d + b / d;
    assert d * q == d * (a / d) + d * (b / d);
    if a + b < d * q + d {
      DivIs(a + b, d, q);
    } else {
      assert d * (q + 1) == d * q + d;
      DivIs(a + b, d, q + 1);
    }
  }

  /** Splitting an amount over k lines moves the total tax by at most k - 1 cents. */
  lemma {:induction false} SplittingMovesTax(parts: seq<nat>, rateBps: nat, inclusive: bool)
    requires parts != []
    ensures var whole := ApplyTax(Sum(parts), rateBps, inclusive);
            var split := TaxOfParts(parts, rateBps, inclusive);
            if inclusive then whole <= split <= whole + |parts| - 1
            else split <= whole <= split + |parts| - 1
  {
    if |parts| == 1 {
      assert parts == [parts[0]];
    } else {
      SplittingMovesTax(parts[1..], rateBps, inclusive);
      TaxOfTwo(parts[0], Sum(parts[1..]), rateBps, inclusive);
    }
  }
}
