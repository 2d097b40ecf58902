/**
  What one promotion does, told from the basket alone: when it runs, which lines and how many
  of their units it covers, what it takes off for each type, and what each line gets of that.

  The definitions here are written for the reader, in the terms of the promotion and the
  basket; the lemmas connect them with what the engine computes.
 */
module PromoMeaning {
  import opened Seqs
  import opened Division
  import opened Pricing
  import opened Splitting
  import opened Promotions
  import opened Bundles
  import opened PromoLaws

  ghost function UnitsOn(lines: seq<BasketLine>, picks: BasketLine -> bool): nat {
    if lines == [] then 0
    else (if picks(lines[0]) then lines[0].quantity else 0) + UnitsOn(lines[1..], picks)
  }

  ghost function OfItem(item: Uuid): BasketLine -> bool {
    (l: BasketLine) => l.itemId == item
  }

  /** Items the catalog does not know belong to the nil category. */
  ghost function OfCategory(category: Uuid, categories: map<Uuid, Uuid>): BasketLine -> bool {
    (l: BasketLine) => category == if l.itemId in categories then categories[l.itemId] else NIL_UUID
  }

  lemma {:induction false} SameUnits(lines: seq<BasketLine>, f: BasketLine -> nat, picks: BasketLine -> bool)
    requires forall l: BasketLine :: f(l) == if picks(l) then l.quantity else 0
    ensures SumBy(lines, f) == UnitsOn(lines, picks)
  {
    if lines != [] {
      SameUnits(lines[1..], f, picks);
    }
  }

  // ---- when it runs ----

  ghost predicate Holds(c: PromoCondition, b: Basket) {
    && (c.MinBasketAmount? ==> c.amountCents <= b.subtotal)
    && (c.ItemInBasket? ==> c.minQuantity <= UnitsOn(b.lines, OfItem(c.itemId)))
    && (c.CategoryInBasket? ==> c.minQuantity <= UnitsOn(b.lines, OfCategory(c.categoryId, b.categories)))
  }

  lemma ConditionHolds(c: PromoCondition, b: Basket)
    ensures ConditionMet(c, b) <==> Holds(c, b)
  {
    match c
    case MinBasketAmount(_) =>
    case ItemInBasket(item, _) => SameUnits(b.lines, ItemUnits(item), OfItem(item));
    case CategoryInBasket(category, _) =>
      SameUnits(b.lines, CategoryUnits(category, b.categories), OfCategory(category, b.categories));
  }

  /** A promotion runs inside its validity, both ends included, if every condition holds. */
  lemma RunsWhen(p: Promotion, b: Basket)
    ensures Runs(p, b) <==>
      && p.validFrom <= b.now
      && (p.validUntil.Some? ==> b.now <= p.validUntil.value)
      && (forall i :: 0 <= i < |p.conditions| ==> Holds(p.conditions[i], b))
  {
    forall i | 0 <= i < |p.conditions| ensures ConditionMet(p.conditions[i], b) <==> Holds(p.conditions[i], b) {
      ConditionHolds(p.conditions[i], b);
    }
    if forall i :: 0 <= i < |p.conditions| ==> Holds(p.conditions[i], b) {
      forall c | c in p.conditions ensures ConditionMet(c, b) {
        var i :| 0 <= i < |p.conditions| && p.conditions[i] == c;
      }
    } else {
      var i :| 0 <= i < |p.conditions| && !Holds(p.conditions[i], b);
      assert p.conditions[i] in p.conditions;
    }
  }

  // ---- how many units it covers ----

  ghost function Names(a: PromoAction, categories: map<Uuid, Uuid>): BasketLine -> bool {
    match a
    case ApplyToItem(item, _) => OfItem(item)
    case ApplyToCategory(category, _) => OfCategory(category, categories)
    case ApplyToBasket => (l: BasketLine) => true
  }

  /** The lines some action names (all of them if there are no actions) and that still cost something. */
  ghost function Covered(p: Promotion, b: Basket, totals: map<Uuid, nat>): BasketLine -> bool {
    (l: BasketLine) =>
      && (p.actions == [] || exists i :: 0 <= i < |p.actions| && Names(p.actions[i], b.categories)(l))
      && Get(totals, l.lineId) > 0
  }

  /** Action `i` is the first that names an item or a category. */
  ghost predicate Targets(actions: seq<PromoAction>, i: int) {
    && 0 <= i < |actions|
    && !actions[i].ApplyToBasket?
    && (forall k :: 0 <= k < i ==> actions[k].ApplyToBasket?)
  }

  /** The condition counts units of the very item or category that the action names. */
  ghost predicate Asks(c: PromoCondition, a: PromoAction) {
    || (c.ItemInBasket? && a.ApplyToItem? && c.itemId == a.itemId)
    || (c.CategoryInBasket? && a.ApplyToCategory? && c.categoryId == a.categoryId)
  }

  ghost predicate FirstAsking(conditions: seq<PromoCondition>, a: PromoAction, j: int) {
    && 0 <= j < |conditions|
    && Asks(conditions[j], a)
    && (forall k :: 0 <= k < j ==> !Asks(conditions[k], a))
  }

  /** How often the condition is met by `units`; at least once. */
  ghost function Groups(units: nat, least: nat): nat {
    if least == 0 || units < least then 1 else units / least
  }

  /**
    The unit cap. A promotion that names nothing has none. Otherwise its maximum (or what its
    condition asks for, if it has no maximum of its own) is granted once per group of units
    that meets the condition.
   */
  ghost predicate IsCap(p: Promotion, b: Basket, cap: nat) {
    && ((forall k :: 0 <= k < |p.actions| ==> p.actions[k].ApplyToBasket?) ==> cap == U32_MAX)
    && (forall i :: Targets(p.actions, i) ==>
          var a := p.actions[i];
          && ((forall k :: 0 <= k < |p.conditions| ==> !Asks(p.conditions[k], a)) ==>
                cap == if a.maxQuantity.Some? then a.maxQuantity.value else U32_MAX)
          && (forall j :: FirstAsking(p.conditions, a, j) ==>
                var least := p.conditions[j].minQuantity;
                var most := if a.maxQuantity.Some? then a.maxQuantity.value else least;
                cap == Min(most * Groups(UnitsOn(b.lines, Names(a, b.categories)), least), U32_MAX)))
  }

  lemma {:induction false} TargetIs(actions: seq<PromoAction>, i: int)
    requires Targets(actions, i)
    ensures TargetAction(actions) == Some(actions[i])
  {
    if i > 0 {
      assert actions[0].ApplyToBasket?;
      assert Targets(actions[1..], i - 1);
      TargetIs(actions[1..], i - 1);
    }
  }

  lemma {:induction false} NoTarget(actions: seq<PromoAction>)
    requires forall k :: 0 <= k < |actions| ==> actions[k].ApplyToBasket?
    ensures TargetAction(actions) == None
  {
    if actions != [] {
      NoTarget(actions[1..]);
    }
  }

  lemma {:induction false} AskedUnits(conditions: seq<PromoCondition>, a: PromoAction, j: int)
    requires FirstAsking(conditions, a, j)
    ensures TriggerUnits(conditions, a) == Some(conditions[j].minQuantity)
  {
    if j > 0 {
      assert !Asks(conditions[0], a);
      assert FirstAsking(conditions[1..], a, j - 1);
      AskedUnits(conditions[1..], a, j - 1);
    }
  }

  lemma {:induction false} NoneAsks(conditions: seq<PromoCondition>, a: PromoAction)
    requires forall k :: 0 <= k < |conditions| ==> !Asks(conditions[k], a)
    ensures TriggerUnits(conditions, a) == None
  {
    if conditions != [] {
      assert !Asks(conditions[0], a);
      NoneAsks(conditions[1..], a);
    }
  }

  lemma GroupsAre(units: nat, least: nat)
    ensures Groups(units, least) == if least > 0 then Max(units / least, 1) else 1
  {
    if least > 0 && units < least {
      DivIs(units, least, 0);
    } else if least > 0 {
      DivMonotone(least, units, least);
      DivIs(least, least, 1);
    }
  }

  lemma CapIs(p: Promotion, b: Basket)
    ensures IsCap(p, b, MaxUnits(p, b))
  {
    if forall k :: 0 <= k < |p.actions| ==> p.actions[k].ApplyToBasket? {
      NoTarget(p.actions);
    }
    forall i | Targets(p.actions, i)
      ensures var a := p.actions[i];
        && ((forall k :: 0 <= k < |p.conditions| ==> !Asks(p.conditions[k], a)) ==>
              MaxUnits(p, b) == if a.maxQuantity.Some? then a.maxQuantity.value else U32_MAX)
        && (forall j :: FirstAsking(p.conditions, a, j) ==>
              var least := p.conditions[j].minQuantity;
              var most := if a.maxQuantity.Some? then a.maxQuantity.value else least;
              MaxUnits(p, b) == Min(most * Groups(UnitsOn(b.lines, Names(a, b.categories)), least), U32_MAX))
    {
      TargetIs(p.actions, i);
      var a := p.actions[i];
      if forall k :: 0 <= k < |p.conditions| ==> !Asks(p.conditions[k], a) {
        NoneAsks(p.conditions, a);
      }
      forall j | FirstAsking(p.conditions, a, j)
        ensures var least := p.conditions[j].minQuantity;
          var most := if a.maxQuantity.Some? then a.maxQuantity.value else least;
          MaxUnits(p, b) == Min(most * Groups(UnitsOn(b.lines, Names(a, b.categories)), least), U32_MAX)
      {
        AskedUnits(p.conditions, a, j);
        SameUnits(b.lines, TargetUnits(a, b.categories), Names(a, b.categories));
        GroupsAre(UnitsOn(b.lines, Names(a, b.categories)), p.conditions[j].minQuantity);
      }
    }
  }

  function Granted(): Capped -> nat { (c: Capped) => c.eligible }

  ghost predicate Ascending(capped: seq<Capped>) {
    forall i, j :: 0 <= i < j < |capped| ==> capped[i].line.lineId <= capped[j].line.lineId
  }

  /** Each line is granted as many of its units as the lines before it leave of the cap. */
  ghost predicate HandedOut(cap: nat, capped: seq<Capped>) {
    forall i :: 0 <= i < |capped| ==>
      capped[i].eligible == Min(capped[i].line.quantity, cap - SumBy(capped[..i], Granted()))
  }

  /** `l` is among the lines, or the cap was used up by lines before it. */
  ghost predicate Served(l: BasketLine, cap: nat, capped: seq<Capped>) {
    || (exists i :: 0 <= i < |capped| && capped[i].line == l)
    || (SumBy(capped, Granted()) == cap && forall i :: 0 <= i < |capped| ==> capped[i].line.lineId <= l.lineId)
  }

  ghost predicate AllServed(lines: seq<BasketLine>, picks: BasketLine -> bool, cap: nat, capped: seq<Capped>) {
    forall l :: l in lines && picks(l) ==> Served(l, cap, capped)
  }

  /**
    The picked lines in order of their ids, each with as many of its units as the cap still
    allows. A picked line is missing only once the cap is used up.
   */
  ghost predicate Grants(lines: seq<BasketLine>, picks: BasketLine -> bool, cap: nat, capped: seq<Capped>) {
    && (forall i :: 0 <= i < |capped| ==> capped[i].line in lines && picks(capped[i].line))
    && Ascending(capped)
    && HandedOut(cap, capped)
    && SumBy(capped, Granted()) == Min(cap, UnitsOn(lines, picks))
    && AllServed(lines, picks, cap, capped)
  }

  ghost function Costs(totals: map<Uuid, nat>): BasketLine -> bool {
    (l: BasketLine) => Get(totals, l.lineId) > 0
  }

  ghost function CostingUnits(totals: map<Uuid, nat>): BasketLine -> nat {
    (l: BasketLine) => if Get(totals, l.lineId) > 0 then l.quantity else 0
  }

  lemma {:induction false} CapLinesGrants(lines: seq<BasketLine>, totals: map<Uuid, nat>, cap: nat)
    requires SortedBy(lines, LineKey())
    ensures Grants(lines, Costs(totals), cap, CapLines(lines, totals, cap))
  {
    if lines != [] {
      var rest := lines[1..];
      TailOf(lines, LineKey());
      if Get(totals, lines[0].lineId) == 0 {
        CapLinesGrants(rest, totals, cap);
        SkipLine(lines, totals, cap, CapLines(rest, totals, cap));
      } else {
        var given := Min(lines[0].quantity, cap);
        CapLinesGrants(rest, totals, cap - given);
        var tail := if cap == given then [] else CapLines(rest, totals, cap - given);
        GrantLine(lines, totals, cap, tail);
      }
    }
  }

  lemma SkipLine(lines: seq<BasketLine>, totals: map<Uuid, nat>, cap: nat, capped: seq<Capped>)
    requires lines != [] && SortedBy(lines, LineKey())
    requires Get(totals, lines[0].lineId) == 0 && Grants(lines[1..], Costs(totals), cap, capped)
    ensures Grants(lines, Costs(totals), cap, capped)
  {
    assert lines == [lines[0]] + lines[1..];
  }

  lemma GrantLine(lines: seq<BasketLine>, totals: map<Uuid, nat>, cap: nat, tail: seq<Capped>)
    requires lines != [] && SortedBy(lines, LineKey()) && Get(totals, lines[0].lineId) > 0
    requires var given := Min(lines[0].quantity, cap);
             if cap == given then tail == [] else Grants(lines[1..], Costs(totals), cap - given, tail)
    ensures Grants(lines, Costs(totals), cap, [Capped(lines[0], Min(lines[0].quantity, cap))] + tail)
  {
    var first := Capped(lines[0], Min(lines[0].quantity, cap));
    var capped := [first] + tail;
    assert lines == [lines[0]] + lines[1..];
    assert SumBy(capped, Granted()) == first.eligible + SumBy(tail, Granted()) by {
      assert capped[1..] == tail;
    }
    FirstIsLeast(lines, first, tail);
    HandOutFirst(first, tail, cap);
    ServeRest(lines, totals, first, tail, cap);
  }

  lemma ServeRest(lines: seq<BasketLine>, totals: map<Uuid, nat>, first: Capped, tail: seq<Capped>, cap: nat)
    requires lines != [] && SortedBy(lines, LineKey())
    requires first.line == lines[0] && first.eligible <= cap
    requires if cap == first.eligible then tail == []
             else AllServed(lines[1..], Costs(totals), cap - first.eligible, tail)
    ensures AllServed(lines, Costs(totals), cap, [first] + tail)
  {
    forall l | l in lines && Costs(totals)(l) ensures Served(l, cap, [first] + tail) {
      AfterFirst(lines, l);
      ServedAfter(l, first, tail, cap);
    }
  }

  lemma FirstIsLeast(lines: seq<BasketLine>, first: Capped, tail: seq<Capped>)
    requires lines != [] && SortedBy(lines, LineKey()) && first.line == lines[0] && Ascending(tail)
    requires forall i :: 0 <= i < |tail| ==> tail[i].line in lines[1..]
    ensures Ascending([first] + tail)
  {
    forall i | 0 <= i < |tail| ensures first.line.lineId <= tail[i].line.lineId {
      assert tail[i].line in lines;
      AfterFirst(lines, tail[i].line);
    }
  }

  lemma HandOutFirst(first: Capped, tail: seq<Capped>, cap: nat)
    requires first.eligible == Min(first.line.quantity, cap)
    requires tail == [] || HandedOut(cap - first.eligible, tail)
    ensures HandedOut(cap, [first] + tail)
  {
    var capped := [first] + tail;
    forall i | 0 < i < |capped|
      ensures capped[i].eligible == Min(capped[i].line.quantity, cap - SumBy(capped[..i], Granted()))
    {
      assert capped[..i][1..] == tail[..i - 1];
    }
  }

  lemma ServedAfter(l: BasketLine, first: Capped, tail: seq<Capped>, cap: nat)
    requires first.eligible <= cap && first.line.lineId <= l.lineId
    requires l == first.line || (cap == first.eligible && tail == []) || Served(l, cap - first.eligible, tail)
    ensures Served(l, cap, [first] + tail)
  {
    var capped := [first] + tail;
    assert capped[1..] == tail;
    if l == first.line {
      assert capped[0].line == l;
    } else if i :| 0 <= i < |tail| && tail[i].line == l {
      assert capped[i + 1].line == l;
    }
  }

  lemma AfterFirst(lines: seq<BasketLine>, l: BasketLine)
    requires lines != [] && SortedBy(lines, LineKey()) && l in lines
    ensures lines[0].lineId <= l.lineId
  {
    var k :| 0 <= k < |lines| && lines[k] == l;
    assert k == 0 || LineKey()(lines[0]) <= LineKey()(lines[k]);
  }

  lemma MatchesIsNames(l: BasketLine, a: PromoAction, categories: map<Uuid, Uuid>)
    ensures Matches(l, a, categories) <==> Names(a, categories)(l)
  {
    match a
    case ApplyToItem(_, _) =>
    case ApplyToCategory(_, _) =>
    case ApplyToBasket =>
  }

  lemma CoveredIs(p: Promotion, b: Basket, totals: map<Uuid, nat>, l: BasketLine)
    ensures Covered(p, b, totals)(l) <==> Applies(p, b)(l) && Costs(totals)(l)
  {
    if p.actions != [] && ActionApplies(l, p.actions, b.categories) {
      var a :| a in p.actions && Matches(l, a, b.categories);
      var i :| 0 <= i < |p.actions| && p.actions[i] == a;
      MatchesIsNames(l, a, b.categories);
      assert Names(p.actions[i], b.categories)(l);
    }
    if i :| 0 <= i < |p.actions| && Names(p.actions[i], b.categories)(l) {
      MatchesIsNames(l, p.actions[i], b.categories);
      assert p.actions[i] in p.actions;
    }
  }

  lemma {:induction false} CoveredUnits(lines: seq<BasketLine>, p: Promotion, b: Basket, totals: map<Uuid, nat>)
    ensures SumBy(Filter(lines, Applies(p, b)), CostingUnits(totals)) == UnitsOn(lines, Covered(p, b, totals))
  {
    if lines != [] {
      CoveredUnits(lines[1..], p, b, totals);
      CoveredIs(p, b, totals, lines[0]);
    }
  }

  lemma SameGrants(lines: seq<BasketLine>, picks: BasketLine -> bool, cap: nat, capped: seq<Capped>,
                   lines': seq<BasketLine>, picks': BasketLine -> bool)
    requires Grants(lines, picks, cap, capped)
    requires UnitsOn(lines, picks) == UnitsOn(lines', picks')
    requires forall l :: l in lines && picks(l) <==> l in lines' && picks'(l)
    ensures Grants(lines', picks', cap, capped)
  {
  }

  /** The engine's list: the covered lines of the basket, with the cap handed out over them. */
  lemma CappedLinesGrant(p: Promotion, b: Basket, totals: map<Uuid, nat>)
    ensures Grants(b.lines, Covered(p, b, totals), MaxUnits(p, b), CappedLines(p, b, totals))
  {
    var kept := Filter(b.lines, Applies(p, b));
    var sorted := Applicable(p, b);
    SortByFacts(kept, LineKey());
    CapLinesGrants(sorted, totals, MaxUnits(p, b));
    SameUnits(sorted, CostingUnits(totals), Costs(totals));
    SumBySort(kept, LineKey(), CostingUnits(totals));
    CoveredUnits(b.lines, p, b, totals);
    forall l ensures l in sorted && Costs(totals)(l) <==> l in b.lines && Covered(p, b, totals)(l) {
      CoveredIs(p, b, totals, l);
      InApplicable(p, b, l);
    }
    SameGrants(sorted, Costs(totals), MaxUnits(p, b), CappedLines(p, b, totals), b.lines, Covered(p, b, totals));
  }

  lemma InApplicable(p: Promotion, b: Basket, l: BasketLine)
    ensures l in Applicable(p, b) <==> l in b.lines && Applies(p, b)(l)
  {
    var kept := Filter(b.lines, Applies(p, b));
    SortMembers(kept, LineKey());
    FilterMembers(b.lines, Applies(p, b));
    if l in kept {
      var i :| 0 <= i < |kept| && kept[i] == l;
    }
  }

  // ---- what it takes off ----

  /** What the granted units of a line still cost, rounded down. */
  ghost predicate IsCents(c: Capped, totals: map<Uuid, nat>, cents: nat) {
    if c.line.quantity == 0 then cents == 0
    else c.line.quantity * cents <= Get(totals, c.line.lineId) * c.eligible < c.line.quantity * cents + c.line.quantity
  }

  ghost predicate AreCents(capped: seq<Capped>, totals: map<Uuid, nat>, es: seq<nat>) {
    |es| == |capped| && forall i :: 0 <= i < |es| ==> IsCents(capped[i], totals, es[i])
  }

  /** The granted units of a line, at the line's price per unit, rounded down. */
  ghost predicate IsUnits(c: Capped, cents: nat, u: Units) {
    u.qty == c.eligible && (u.qty > 0 ==> u.qty * u.price <= cents < u.qty * u.price + u.qty)
  }

  ghost predicate AreUnits(capped: seq<Capped>, es: seq<nat>, units: seq<Units>) {
    |units| == |es| == |capped| && forall i :: 0 <= i < |units| ==> IsUnits(capped[i], es[i], units[i])
  }

  lemma CentsAre(c: Capped, totals: map<Uuid, nat>, cents: nat)
    ensures IsCents(c, totals, cents) <==> cents == EligibleCents(c, totals)
  {
    if c.line.quantity > 0 {
      var priced := Get(totals, c.line.lineId) * c.eligible;
      DivBounds(priced, c.line.quantity);
      if IsCents(c, totals, cents) {
        DivIs(priced, c.line.quantity, cents);
      }
    }
  }

  lemma EligiblesAre(capped: seq<Capped>, totals: map<Uuid, nat>, es: seq<nat>)
    ensures AreCents(capped, totals, es) <==> es == Eligibles(capped, totals)
  {
    if |es| == |capped| {
      forall i | 0 <= i < |es| ensures IsCents(capped[i], totals, es[i]) <==> es[i] == Eligibles(capped, totals)[i] {
        CentsAre(capped[i], totals, es[i]);
      }
    }
  }

  /** There are such cents and units for every list of capped lines. */
  lemma CentsAndUnits(capped: seq<Capped>, totals: map<Uuid, nat>) returns (es: seq<nat>, units: seq<Units>)
    ensures AreCents(capped, totals, es) && AreUnits(capped, es, units)
  {
    es := Eligibles(capped, totals);
    EligiblesAre(capped, totals, es);
    units := seq(|capped|, i requires 0 <= i < |capped| =>
      Units(if capped[i].eligible == 0 then 0 else es[i] / capped[i].eligible, capped[i].eligible));
    forall i | 0 <= i < |units| ensures IsUnits(capped[i], es[i], units[i]) {
      if capped[i].eligible > 0 {
        DivBounds(es[i], capped[i].eligible);
      }
    }
  }

  /** What can be capped: lines that cost something, and no more units than there are. */
  ghost predicate Sound(capped: seq<Capped>, totals: map<Uuid, nat>) {
    forall i :: 0 <= i < |capped| ==>
      capped[i].eligible <= capped[i].line.quantity && Get(totals, capped[i].line.lineId) > 0
  }

  lemma UnitPriceIs(c: Capped, totals: map<Uuid, nat>, cents: nat, u: Units)
    requires IsCents(c, totals, cents) && IsUnits(c, cents, u) && c.eligible > 0
    ensures UnitPrice(c, totals) == u.price
  {
    CentsAre(c, totals, cents);
    DivIs(cents, c.eligible, u.price);
  }

  /** What `u` costs above `price` a unit. */
  ghost function Above(price: nat): Units -> nat {
    (u: Units) => u.qty * Sub(u.price, price)
  }

  lemma {:induction false} OverrideSum(capped: seq<Capped>, totals: map<Uuid, nat>, es: seq<nat>, units: seq<Units>,
                                       price: nat)
    requires AreCents(capped, totals, es) && AreUnits(capped, es, units) && Sound(capped, totals)
    ensures SumBy(capped, OverrideDiscount(price, totals)) == SumBy(units, Above(price)) <= Sum(es)
  {
    if capped != [] {
      var c, cents, u := capped[0], es[0], units[0];
      assert IsCents(c, totals, cents) && IsUnits(c, cents, u);
      assert Sound(capped[1..], totals) && AreUnits(capped[1..], es[1..], units[1..]);
      assert AreCents(capped[1..], totals, es[1..]);
      OverrideSum(capped[1..], totals, es[1..], units[1..], price);
      OverrideOfOne(c, totals, cents, u, price);
    }
  }

  lemma OverrideOfOne(c: Capped, totals: map<Uuid, nat>, cents: nat, u: Units, price: nat)
    requires IsCents(c, totals, cents) && IsUnits(c, cents, u)
    requires c.eligible <= c.line.quantity && Get(totals, c.line.lineId) > 0
    ensures OverrideDiscount(price, totals)(c) == Above(price)(u) <= cents
  {
    if c.eligible > 0 {
      UnitPriceIs(c, totals, cents, u);
      MulLe(u.qty, Sub(u.price, price), u.price);
      Commute(u.qty, Sub(u.price, price));
      assert u.qty * 0 == 0;
    }
  }

  lemma CappedAreSound(p: Promotion, b: Basket, totals: map<Uuid, nat>)
    ensures Sound(CappedLines(p, b, totals), totals)
  {
    CappedLinesGrant(p, b, totals);
    var capped := CappedLines(p, b, totals);
    forall i | 0 <= i < |capped|
      ensures capped[i].eligible <= capped[i].line.quantity && Get(totals, capped[i].line.lineId) > 0
    {
      assert Covered(p, b, totals)(capped[i].line);
    }
  }

  /**
    A percentage of what the capped units cost, rounded down; a fixed amount, at most what
    they cost; or whatever each unit costs above a set price.
   */
  lemma DiscountIs(p: Promotion, b: Basket, totals: map<Uuid, nat>, es: seq<nat>, units: seq<Units>)
    requires AreCents(CappedLines(p, b, totals), totals, es) && AreUnits(CappedLines(p, b, totals), es, units)
    ensures var d, t := PromoDiscount(p, b, totals), p.promoType;
      && (t.PercentageOff? ==> BASIS_POINTS * d <= Sum(es) * t.percentBps < BASIS_POINTS * d + BASIS_POINTS)
      && (t.FixedAmountOff? ==> d == Min(t.amountCents, Sum(es)))
      && (t.PriceOverride? ==> d == SumBy(units, Above(t.priceCents)))
  {
    var capped := CappedLines(p, b, totals);
    EligiblesAre(capped, totals, es);
    CappedAreSound(p, b, totals);
    match p.promoType
    case PercentageOff(bps) =>
      DivBounds(Sum(es) * bps, BASIS_POINTS);
      assert 0 * bps == 0;
    case FixedAmountOff(_) =>
    case BuyXGetY(_, _) =>
    case PriceOverride(price) =>
      OverrideSum(capped, totals, es, units, price);
  }

  // ---- buy x, get y ----

  ghost predicate BundlesIn(bundle: nat, total: nat, n: nat) {
    n * bundle <= total < (n + 1) * bundle
  }

  /** `get` units are free for each whole bundle of `buy + get` among `total` units. */
  ghost predicate FreePerBundle(buy: U32, get: U32, total: nat, free: nat) {
    if get == 0 then free == 0
    else exists n: nat :: BundlesIn(Min(buy + get, U32_MAX), total, n) && free == n * get
  }

  lemma FreeUnitsAre(buy: U32, get: U32, total: nat)
    requires total <= U32_MAX
    ensures FreePerBundle(buy, get, total, FreeUnits(buy, get, total))
  {
    if get > 0 {
      var bundle := Min(buy + get, U32_MAX);
      var n := total / bundle;
      DivBounds(total, bundle);
      Commute(n, bundle);
      Commute(n + 1, bundle);
      MulAdd(bundle, n, 1);
      assert BundlesIn(bundle, total, n);
      MulLe(n, get, bundle);
      if total < bundle {
        DivIs(total, bundle, 0);
        assert 0 * get == 0;
      }
    }
  }

  function Granting(): Units -> bool { (u: Units) => u.qty > 0 }

  lemma {:induction false} EligibleUnitsAre(capped: seq<Capped>, totals: map<Uuid, nat>, es: seq<nat>, units: seq<Units>)
    requires AreCents(capped, totals, es) && AreUnits(capped, es, units) && Sound(capped, totals)
    ensures EligibleUnits(capped, totals) == Filter(units, Granting())
    ensures SumBy(EligibleUnits(capped, totals), Qty()) == SumBy(capped, Granted()) == SumBy(units, Qty())
  {
    if capped != [] {
      var c, cents, u := capped[0], es[0], units[0];
      assert IsCents(c, totals, cents) && IsUnits(c, cents, u);
      assert Sound(capped[1..], totals) && AreUnits(capped[1..], es[1..], units[1..]);
      assert AreCents(capped[1..], totals, es[1..]);
      EligibleUnitsAre(capped[1..], totals, es[1..], units[1..]);
      if c.eligible > 0 {
        UnitPriceIs(c, totals, cents, u);
        assert ([u] + EligibleUnits(capped[1..], totals))[1..] == EligibleUnits(capped[1..], totals);
      }
    }
  }

  /** A choice among all kinds is a choice, at the same price, among those that have units. */
  lemma {:induction false} DropIdleKinds(units: seq<Units>, takes: seq<nat>, free: nat) returns (rest: seq<nat>)
    requires FreeChoice(units, takes, free)
    ensures FreeChoice(Filter(units, Granting()), rest, free)
    ensures ChoicePrice(Filter(units, Granting()), rest) == ChoicePrice(units, takes)
  {
    if units == [] {
      rest := [];
    } else {
      rest := DropIdleKinds(units[1..], takes[1..], free - takes[0]);
      if units[0].qty > 0 {
        var kept := Filter(units[1..], Granting());
        assert ([units[0]] + kept)[1..] == kept;
        rest := [takes[0]] + rest;
      } else {
        assert units[0].price * 0 == 0;
      }
    }
  }

  lemma {:induction false} AddIdleKinds(units: seq<Units>, rest: seq<nat>, free: nat) returns (takes: seq<nat>)
    requires FreeChoice(Filter(units, Granting()), rest, free)
    ensures FreeChoice(units, takes, free)
    ensures ChoicePrice(units, takes) == ChoicePrice(Filter(units, Granting()), rest)
  {
    if units == [] {
      takes := [];
    } else if units[0].qty > 0 {
      var kept := Filter(units[1..], Granting());
      assert ([units[0]] + kept)[1..] == kept;
      var tail := AddIdleKinds(units[1..], rest[1..], free - rest[0]);
      takes := [rest[0]] + tail;
    } else {
      var tail := AddIdleKinds(units[1..], rest, free);
      takes := [0] + tail;
      assert units[0].price * 0 == 0;
    }
  }

  /**
    A buy-x-get-y promotion gives away `get` units for each whole bundle among the units it
    covers, up to its cap, and its discount is the least total unit price over all ways to
    choose that many of them.
   */
  lemma BundleGivesAwayCheapest(p: Promotion, b: Basket, totals: map<Uuid, nat>, es: seq<nat>, units: seq<Units>)
    returns (free: nat)
    requires p.promoType.BuyXGetY?
    requires AreCents(CappedLines(p, b, totals), totals, es) && AreUnits(CappedLines(p, b, totals), es, units)
    ensures var total := Min(MaxUnits(p, b), UnitsOn(b.lines, Covered(p, b, totals)));
            FreePerBundle(p.promoType.buyQuantity, p.promoType.getQuantity, total, free) && free <= total
    ensures forall takes | FreeChoice(units, takes, free) :: PromoDiscount(p, b, totals) <= ChoicePrice(units, takes)
    ensures exists takes :: FreeChoice(units, takes, free) && PromoDiscount(p, b, totals) == ChoicePrice(units, takes)
  {
    var capped, t := CappedLines(p, b, totals), p.promoType;
    CappedAreSound(p, b, totals);
    CappedLinesGrant(p, b, totals);
    EligibleUnitsAre(capped, totals, es, units);
    var kept := EligibleUnits(capped, totals);
    free := FreeUnits(t.buyQuantity, t.getQuantity, SumBy(kept, Qty()));
    FreeUnitsAre(t.buyQuantity, t.getQuantity, SumBy(kept, Qty()));
    CheapestOfEligible(p, b, totals);
    forall takes | FreeChoice(units, takes, free) ensures PromoDiscount(p, b, totals) <= ChoicePrice(units, takes) {
      var rest := DropIdleKinds(units, takes, free);
    }
    var rest :| FreeChoice(kept, rest, free) && PromoDiscount(p, b, totals) == ChoicePrice(kept, rest);
    var takes := AddIdleKinds(units, rest, free);
  }

  // ---- what each line gets of it ----

  /**
    Every line but the last gets its part of `d`, rounded down, though never more than is
    left or than its own cents; the last gets what is left; a line without cents gets none.
   */
  ghost predicate IsSplit(es: seq<nat>, d: nat, shares: seq<nat>) {
    |shares| == |es| && forall i :: 0 <= i < |es| ==>
      var left := Sub(d, Sum(shares[..i]));
      shares[i] ==
        if es[i] == 0 then 0
        else if i == |es| - 1 then left
        else Min(Min(d * es[i] / Max(Sum(es), 1), left), es[i])
  }

  lemma {:induction false} ShareIs(es: seq<nat>, quotas: seq<nat>, remaining: nat, i: nat)
    requires |es| == |quotas| && i < |es|
    ensures var shares := PromoShares(es, quotas, remaining);
            var left := Sub(remaining, Sum(shares[..i]));
            shares[i] ==
              if es[i] == 0 then 0 else if i == |es| - 1 then left else Min(Min(quotas[i], left), es[i])
  {
    var shares := PromoShares(es, quotas, remaining);
    if i > 0 {
      ShareIs(es[1..], quotas[1..], Sub(remaining, shares[0]), i - 1);
      var tail := PromoShares(es[1..], quotas[1..], Sub(remaining, shares[0]));
      assert shares == [shares[0]] + tail;
      assert shares[..i] == [shares[0]] + tail[..i - 1];
    }
  }

  lemma SharesAre(es: seq<nat>, d: nat)
    requires Sum(es) > 0
    ensures IsSplit(es, d, PromoShares(es, Quotas(es, d, Sum(es)), d))
  {
    var quotas := Quotas(es, d, Sum(es));
    var shares := PromoShares(es, quotas, d);
    forall i | 0 <= i < |es|
      ensures var left := Sub(d, Sum(shares[..i]));
        shares[i] ==
          if es[i] == 0 then 0
          else if i == |es| - 1 then left
          else Min(Min(d * es[i] / Max(Sum(es), 1), left), es[i])
    {
      ShareIs(es, quotas, d, i);
      QuotaAt(es, d, Sum(es), i);
    }
  }

  /** `share` was added to the discount of line `id` and taken off its total. */
  ghost predicate Moved(before: Tally, after: Tally, id: Uuid, share: nat) {
    && Get(after.discounts, id) == Get(before.discounts, id) + share
    && Get(after.totals, id) == Sub(Get(before.totals, id), share)
  }

  /**
    A promotion that runs splits its discount over the capped lines and moves each line's
    part from its total to its discount. It is reported if it took anything off. All other
    lines, and all lines if it does not run, stay as they are.
   */
  lemma PromoIsShared(p: Promotion, b: Basket, t: Tally, es: seq<nat>) returns (shares: seq<nat>)
    requires DistinctIds(b.lines) && AreCents(CappedLines(p, b, t.totals), t.totals, es)
    ensures var capped, d, out := CappedLines(p, b, t.totals), PromoDiscount(p, b, t.totals), ApplyOne(p, b, t);
      && |shares| == |capped|
      && (if Runs(p, b) && Sum(es) > 0 then IsSplit(es, d, shares) else forall i :: 0 <= i < |shares| ==> shares[i] == 0)
      && (forall i :: 0 <= i < |capped| ==> Moved(t, out.tally, capped[i].line.lineId, shares[i]))
      && (forall id :: (forall i :: 0 <= i < |capped| ==> capped[i].line.lineId != id) ==> Moved(t, out.tally, id, 0))
      && out.ids == if Runs(p, b) && d > 0 then [p.id] else []
  {
    var capped, d := CappedLines(p, b, t.totals), PromoDiscount(p, b, t.totals);
    EligiblesAre(capped, t.totals, es);
    CappedAreDistinct(p, b, t.totals);
    if Runs(p, b) && Sum(es) > 0 {
      shares := PromoShares(es, Quotas(es, d, Sum(es)), d);
      AppliedShares(p, b, t, capped, es, d);
      SharesAre(es, d);
      SharesMove(capped, shares, t);
    } else {
      shares := seq(|capped|, i => 0);
    }
  }

  lemma SharesMove(capped: seq<Capped>, shares: seq<nat>, t: Tally)
    requires DistinctCapped(capped) && |shares| == |capped|
    ensures var t' := AddShares(capped, shares, t);
      && (forall i :: 0 <= i < |capped| ==> Moved(t, t', capped[i].line.lineId, shares[i]))
      && (forall id :: (forall i :: 0 <= i < |capped| ==> capped[i].line.lineId != id) ==> Moved(t, t', id, 0))
  {
    var t' := AddShares(capped, shares, t);
    forall i | 0 <= i < |capped| ensures Moved(t, t', capped[i].line.lineId, shares[i]) {
      AddSharesAt(capped, shares, t, capped[i].line.lineId);
      ShareAt(capped, shares, i);
    }
    forall id | forall i :: 0 <= i < |capped| ==> capped[i].line.lineId != id ensures Moved(t, t', id, 0) {
      AddSharesAt(capped, shares, t, id);
      NoShareElsewhere(capped, shares, id);
    }
  }

  // ---- in which order promotions run ----

  /** `order` holds the same promotions, the highest priority first, equal ones as they were listed. */
  ghost predicate ByPriority(ps: seq<Promotion>, order: seq<Promotion>) {
    && multiset(order) == multiset(ps)
    && (forall i, j :: 0 <= i < j < |order| ==> order[i].priority >= order[j].priority)
    && (forall n: nat :: Filter(order, HasPriority(n)) == Filter(ps, HasPriority(n)))
  }

  function HasPriority(n: nat): Promotion -> bool { (p: Promotion) => p.priority == n }

  /** Runs the promotions in the order given, each on what the earlier ones left. */
  ghost function RunInOrder(order: seq<Promotion>, b: Basket, t: Tally): Outcome {
    if order == [] then Outcome(t, [])
    else
      var n := |order| - 1;
      var before := RunInOrder(order[..n], b, t);
      var last := ApplyOne(order[n], b, before.tally);
      Outcome(last.tally, before.ids + last.ids)
  }

  lemma {:induction false} RunAppend(ps: seq<Promotion>, p: Promotion, b: Basket, t: Tally)
    ensures var before := ApplyAll(ps, b, t);
            var last := ApplyOne(p, b, before.tally);
            ApplyAll(ps + [p], b, t) == Outcome(last.tally, before.ids + last.ids)
  {
    if ps == [] {
      assert ps + [p] == [p] && [p][1..] == [];
    } else {
      var first := ApplyOne(ps[0], b, t);
      RunAppend(ps[1..], p, b, first.tally);
      assert (ps + [p])[1..] == ps[1..] + [p];
      var before := ApplyAll(ps[1..], b, first.tally);
      var last := ApplyOne(p, b, before.tally);
      assert (first.ids + before.ids) + last.ids == first.ids + (before.ids + last.ids);
    }
  }

  lemma {:induction false} RunsInOrder(order: seq<Promotion>, b: Basket, t: Tally)
    ensures ApplyAll(order, b, t) == RunInOrder(order, b, t)
  {
    if order != [] {
      var n := |order| - 1;
      RunsInOrder(order[..n], b, t);
      RunAppend(order[..n], order[n], b, t);
      assert order == order[..n] + [order[n]];
    }
  }

  lemma {:induction false} OneKeyIsSorted(ps: seq<Promotion>, key: Promotion -> int)
    requires forall i, j :: 0 <= i < j < |ps| ==> key(ps[i]) == key(ps[j])
    ensures SortBy(ps, key) == ps
  {
    if ps != [] {
      OneKeyIsSorted(ps[1..], key);
      assert ps == [ps[0]] + ps[1..];
    }
  }

  /**
    The engine runs the promotions by priority, starting from no discounts and full line
    totals.
   */
  lemma HigherPriorityRunsFirst(ps: seq<Promotion>, b: Basket) returns (order: seq<Promotion>, t: Tally)
    requires DistinctIds(b.lines)
    ensures ByPriority(ps, order) && ApplyPromos(ps, b) == RunInOrder(order, b, t)
    ensures forall i :: 0 <= i < |b.lines| ==>
              Get(t.discounts, b.lines[i].lineId) == 0 && Get(t.totals, b.lines[i].lineId) == b.lines[i].lineTotal
  {
    order, t := SortBy(ps, PriorityKey()), InitialTally(b.lines);
    SortByFacts(ps, PriorityKey());
    RunsInOrder(order, b, t);
    DistinctIsInjective(b.lines);
    InitialTallyAt(b.lines);
    forall i, j | 0 <= i < j < |order| ensures order[i].priority >= order[j].priority {
      assert PriorityKey()(order[i]) <= PriorityKey()(order[j]);
    }
    forall n: nat ensures Filter(order, HasPriority(n)) == Filter(ps, HasPriority(n)) {
      FilterSort(ps, PriorityKey(), HasPriority(n));
      FilterMembers(ps, HasPriority(n));
      OneKeyIsSorted(Filter(ps, HasPriority(n)), PriorityKey());
    }
  }
}
