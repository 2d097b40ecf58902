/**
  Spreading an amount over lines in proportion to their cents.

  Every split in the hub computes for each line the quota floor(d * e / total) and leaves
  the rounding to the last line. What differs is how each split caps the shares.
 */
module Splitting {
  import opened Seqs
  import opened Division

  /** The quota floor(d * e / total) of every line with `e` cents. */
  function Quotas(es: seq<nat>, d: nat, total: nat): (qs: seq<nat>)
    requires total > 0
    ensures |qs| == |es|
  {
    if es == [] then [] else [d * es[0] / total] + Quotas(es[1..], d, total)
  }

  lemma {:induction false} QuotaAt(es: seq<nat>, d: nat, total: nat, i: nat)
    requires total > 0 && i < |es|
    ensures Quotas(es, d, total)[i] == d * es[i] / total
    ensures Quotas(es, d, total)[i..] == Quotas(es[i..], d, total)
  {
    if i > 0 {
      QuotaAt(es[1..], d, total, i - 1);
      assert es[1..][i - 1..] == es[i..];
      assert Quotas(es, d, total)[i..] == Quotas(es[1..], d, total)[i - 1..];
    }
  }

  lemma {:induction false} QuotasPrefix(es: seq<nat>, d: nat, total: nat, n: nat)
    requires total > 0 && n <= |es|
    ensures Quotas(es, d, total)[..n] == Quotas(es[..n], d, total)
  {
    if n > 0 {
      QuotasPrefix(es[1..], d, total, n - 1);
      assert es[..n][1..] == es[1..][..n - 1];
      assert Quotas(es, d, total)[..n] == [d * es[0] / total] + Quotas(es[1..], d, total)[..n - 1];
    }
  }

  /** Quotas never exceed the line's cents when at most the total is spread. */
  lemma {:induction false} QuotasFit(es: seq<nat>, d: nat, total: nat)
    requires 0 < total && d <= total
    ensures forall i :: 0 <= i < |es| ==> Quotas(es, d, total)[i] <= es[i]
  {
    if es != [] {
      QuotasFit(es[1..], d, total);
      MulLe(es[0], d, total);
      Commute(es[0], d);
      Commute(es[0], total);
      DivLe(d * es[0], total, es[0]);
    }
  }

  lemma {:induction false} QuotaSumBounds(es: seq<nat>, d: nat, total: nat)
    requires total > 0
    ensures total * Sum(Quotas(es, d, total)) <= d * Sum(es)
    ensures d * Sum(es) <= total * Sum(Quotas(es, d, total)) + (total - 1) * |es|
  {
    if es != [] {
      var q, rest := d * es[0] / total, Quotas(es[1..], d, total);
      QuotaSumBounds(es[1..], d, total);
      DivBounds(d * es[0], total);
      SumAppend([q], rest);
      MulAdd(total, q, Sum(rest));
      MulAdd(d, es[0], Sum(es[1..]));
      MulAdd(total - 1, |es[1..]|, 1);
    }
  }

  /** All the quotas together are at most what is spread. */
  lemma QuotasFitTotal(es: seq<nat>, d: nat)
    requires Sum(es) > 0
    ensures Sum(Quotas(es, d, Sum(es))) <= d
  {
    QuotaSumBounds(es, d, Sum(es));
    Commute(d, Sum(es));
    MulCancelLe(Sum(es), Sum(Quotas(es, d, Sum(es))), d);
  }

  /** The most cents the rounding of n lines can move onto the last one. */
  function Slack(n: nat): nat { if n <= 2 then 0 else n - 2 }

  /** What the quotas of all lines but the last leave exceeds the last line's cents by at most the slack. */
  lemma RestBounds(es: seq<nat>, d: nat)
    requires es != [] && 0 < Sum(es) && d <= Sum(es)
    ensures var front := Sum(Quotas(es, d, Sum(es))[..|es| - 1]);
            front <= d && d - front <= es[|es| - 1] + Slack(|es|)
  {
    var n := |es| - 1;
    var front, last := es[..n], es[n];
    assert es == front + [last];
    SumAppend(front, [last]);
    QuotasPrefix(es, d, Sum(es), n);
    QuotaSumBounds(front, d, Sum(es));
    RestIsSmall(Sum(front), last, d, Sum(es), Sum(Quotas(front, d, Sum(es))), n);
  }

  lemma RestIsSmall(front: nat, last: nat, d: nat, total: nat, quotas: nat, n: nat)
    requires total == front + last && 0 < total && d <= total
    requires total * quotas <= d * front <= total * quotas + (total - 1) * n
    ensures quotas <= d && d - quotas <= last + Slack(n + 1)
  {
    MulLe(d, front, total);
    Commute(d, total);
    MulCancelLe(total, quotas, d);
    MulAdd(d, front, last);
    MulSub(total, d, quotas);
    MulLe(last, d, total);
    Commute(last, d);
    Commute(last, total);
    RestFits(total, d - quotas, last, n);
  }

  lemma RestFits(total: nat, rest: nat, last: nat, n: nat)
    requires total > 0 && total * rest <= total * last + (total - 1) * n
    ensures rest <= last + Slack(n + 1)
  {
    if n == 0 {
      MulCancelLe(total, rest, last);
    } else {
      MulSub(n, total, 1);
      MulAdd(total, last, n);
      if rest >= last + n {
        MulLe(total, last + n, rest);
      }
    }
  }

  // ---- the promotion split ----

  /**
    Shares of the remaining lines of a promotion split, of which `remaining` cents are still
    to be given. The guards are the source's own.
   */
  function PromoShares(es: seq<nat>, quotas: seq<nat>, remaining: nat): (shares: seq<nat>)
    requires |es| == |quotas|
    ensures |shares| == |es|
  {
    if es == [] then []
    else
      var share :=
        if es[0] == 0 then 0
        else if |es| == 1 then remaining
        else Min(Min(quotas[0], remaining), es[0]);
      [share] + PromoShares(es[1..], quotas[1..], Sub(remaining, share))
  }

  /** With nothing to spread, every share is zero. */
  lemma {:induction false} SpreadingNothing(es: seq<nat>, quotas: seq<nat>)
    requires |es| == |quotas|
    ensures forall i :: 0 <= i < |es| ==> PromoShares(es, quotas, 0)[i] == 0
  {
    if es != [] {
      SpreadingNothing(es[1..], quotas[1..]);
    }
  }

  /**
    The guards never bind: every line but the last gets its quota, and the last gets
    whatever is left unless it has no cents at all.
   */
  lemma {:induction false} GuardsNeverBind(es: seq<nat>, quotas: seq<nat>, remaining: nat)
    requires es != [] && |es| == |quotas| && Sum(quotas) <= remaining
    requires forall i :: 0 <= i < |es| ==> quotas[i] <= es[i]
    ensures var n := |es| - 1;
            var shares := PromoShares(es, quotas, remaining);
            && shares[..n] == quotas[..n]
            && Sum(quotas[..n]) <= remaining
            && shares[n] == if es[n] == 0 then 0 else remaining - Sum(quotas[..n])
  {
    if |es| > 1 {
      var n := |es| - 1;
      var shares := PromoShares(es, quotas, remaining);
      GuardsNeverBind(es[1..], quotas[1..], remaining - quotas[0]);
      assert shares[..n] == [quotas[0]] + shares[1..][..n - 1];
      assert quotas[..n] == [quotas[0]] + quotas[1..][..n - 1];
    }
  }

  /**
    The promotion split of `d <= Sum(es)` cents: every line but the last gets its quota,
    which is at most its own cents. If the last line has cents the shares are exactly `d`
    and the last one exceeds its cents by at most the slack; otherwise at most the slack is
    not given to any line.
   */
  lemma PromoSplit(es: seq<nat>, d: nat)
    requires 0 < Sum(es) && d <= Sum(es)
    ensures var quotas := Quotas(es, d, Sum(es));
            var shares := PromoShares(es, quotas, d);
            var n := |es| - 1;
            && n >= 0
            && (forall i :: 0 <= i < n ==> shares[i] == quotas[i] <= es[i])
            && (es[n] > 0 ==> Sum(shares) == d && shares[n] <= es[n] + Slack(|es|))
            && (es[n] == 0 ==> shares[n] == 0 && d - Slack(|es|) <= Sum(shares) <= d)
  {
    var n := |es| - 1;
    var quotas := Quotas(es, d, Sum(es));
    var shares := PromoShares(es, quotas, d);
    QuotasFit(es, d, Sum(es));
    QuotasFitTotal(es, d);
    GuardsNeverBind(es, quotas, d);
    RestBounds(es, d);
    assert shares == shares[..n] + [shares[n]];
    SumAppend(shares[..n], [shares[n]]);
    forall i | 0 <= i < n ensures shares[i] == quotas[i] {
      assert shares[..n][i] == quotas[..n][i];
    }
  }

  /** The quotas of all lines but the last. */
  function FrontQuotas(es: seq<nat>, d: nat): nat
    requires es != [] && Sum(es) > 0
  {
    Sum(Quotas(es, d, Sum(es))[..|es| - 1])
  }

  lemma LastShareIs(es: seq<nat>, d: nat)
    requires 0 < Sum(es) && d <= Sum(es)
    ensures es != []
    ensures PromoShares(es, Quotas(es, d, Sum(es)), d)[|es| - 1] == if es[|es| - 1] == 0 then 0 else d - FrontQuotas(es, d)
  {
    QuotasFit(es, d, Sum(es));
    QuotasFitTotal(es, d);
    GuardsNeverBind(es, Quotas(es, d, Sum(es)), d);
  }

  /**
    The split stays within its lines exactly when the last line has no cents, and so gets
    nothing, or the rounding of the others is no more than what is not spread at all.
   */
  lemma SplitStaysWithin(es: seq<nat>, d: nat)
    requires 0 < Sum(es) && d <= Sum(es)
    ensures es != []
    ensures var n := |es| - 1;
            (forall i :: 0 <= i < |es| ==> PromoShares(es, Quotas(es, d, Sum(es)), d)[i] <= es[i])
              <==> es[n] == 0 || Sum(es[..n]) - FrontQuotas(es, d) <= Sum(es) - d
  {
    PromoSplit(es, d);
    LastShareIs(es, d);
    LastOfSum(es);
  }

  lemma LastOfSum(es: seq<nat>)
    requires es != []
    ensures Sum(es) == Sum(es[..|es| - 1]) + es[|es| - 1]
  {
    assert es == es[..|es| - 1] + [es[|es| - 1]];
    SumAppend(es[..|es| - 1], [es[|es| - 1]]);
  }

  /** The bound on the last share is attained by n equal lines with all but one cent spread. */
  lemma SlackIsAttained(n: nat, e: nat)
    requires n >= 2 && e >= 1
    ensures var es := seq(n, _ => e);
            var d := n * e - 1;
            Sum(es) == n * e && d >= 0
            && PromoShares(es, Quotas(es, d, n * e), d)[n - 1] == e + Slack(n)
  {
    var es: seq<nat> := seq(n, _ => e);
    SumOfEqual(es, e);
    EqualQuota(n, e);
    var d := n * e - 1;
    EqualQuotas(es, e, d);
    QuotasFit(es, d, Sum(es));
    QuotasFitTotal(es, d);
    GuardsNeverBind(es, Quotas(es, d, Sum(es)), d);
  }

  lemma EqualQuotas(es: seq<nat>, e: nat, d: nat)
    requires es != [] && Sum(es) > 0 && d * e / Sum(es) == e - 1
    requires forall i :: 0 <= i < |es| ==> es[i] == e
    ensures Sum(Quotas(es, d, Sum(es))[..|es| - 1]) == (|es| - 1) * (e - 1)
  {
    var front := Quotas(es, d, Sum(es))[..|es| - 1];
    forall i | 0 <= i < |front| ensures front[i] == e - 1 {
      QuotaAt(es, d, Sum(es), i);
    }
    SumOfEqual(front, e - 1);
  }

  lemma EqualQuota(n: nat, e: nat)
    requires n >= 2 && e >= 1
    ensures n * e >= n + e - 1 && (n * e - 1) * e / (n * e) == e - 1
    ensures n * e - 1 - (n - 1) * (e - 1) == e + Slack(n)
  {
    var total := n * e;
    MulAdd(n - 1, e - 1, 1);
    MulLe(n - 1, 0, e - 1);
    assert (n - 1) * e == total - e;
    MulSub(e, total, 1);
    MulSub(total, e, 1);
    Commute(total, e);
    Commute(total - 1, e);
    DivIs((total - 1) * e, total, e - 1);
  }

  lemma {:induction false} SumOfEqual(es: seq<nat>, e: nat)
    requires forall i :: 0 <= i < |es| ==> es[i] == e
    ensures Sum(es) == |es| * e
  {
    if es != [] {
      SumOfEqual(es[1..], e);
      MulAdd(e, |es[1..]|, 1);
    }
  }

  // ---- the split of manual discounts and of basket coupons ----

  /** Shares that never exceed a line's own cents, of which `remaining` cents are still to be given. */
  function CappedShares(nets: seq<nat>, quotas: seq<nat>, remaining: nat): (shares: seq<nat>)
    requires |nets| == |quotas|
    ensures |shares| == |nets|
  {
    if nets == [] then []
    else
      var share :=
        if |nets| == 1 then Min(remaining, nets[0])
        else Min(Min(quotas[0], remaining), nets[0]);
      [share] + CappedShares(nets[1..], quotas[1..], remaining - share)
  }

  /**
    Every line but the last is given its part of `d`, rounded down, though never more than is
    left or than its own cents; the last is given what is left, up to its own cents.
   */
  ghost predicate IsCappedSplit(nets: seq<nat>, d: nat, shares: seq<nat>) {
    |shares| == |nets| && forall i :: 0 <= i < |nets| ==>
      var left := Sub(d, Sum(shares[..i]));
      shares[i] == Min(Min(if i == |nets| - 1 then left else d * nets[i] / Max(Sum(nets), 1), left), nets[i])
  }

  lemma {:induction false} CappedShareIs(nets: seq<nat>, quotas: seq<nat>, remaining: nat, i: nat)
    requires |nets| == |quotas| && i < |nets|
    ensures var shares := CappedShares(nets, quotas, remaining);
            var left := Sub(remaining, Sum(shares[..i]));
            shares[i] == Min(Min(if i == |nets| - 1 then left else quotas[i], left), nets[i])
  {
    var shares := CappedShares(nets, quotas, remaining);
    if i > 0 {
      CappedShareIs(nets[1..], quotas[1..], remaining - shares[0], i - 1);
      var tail := CappedShares(nets[1..], quotas[1..], remaining - shares[0]);
      assert shares == [shares[0]] + tail;
      assert shares[..i] == [shares[0]] + tail[..i - 1];
    }
  }

  lemma CappedSharesAre(nets: seq<nat>, d: nat)
    requires Sum(nets) > 0
    ensures IsCappedSplit(nets, d, CappedShares(nets, Quotas(nets, d, Sum(nets)), d))
  {
    var quotas := Quotas(nets, d, Sum(nets));
    var shares := CappedShares(nets, quotas, d);
    forall i | 0 <= i < |nets|
      ensures var left := Sub(d, Sum(shares[..i]));
        shares[i] == Min(Min(if i == |nets| - 1 then left else d * nets[i] / Max(Sum(nets), 1), left), nets[i])
    {
      CappedShareIs(nets, quotas, d, i);
      QuotaAt(nets, d, Sum(nets), i);
    }
  }

  /** Nothing can be spread over lines without cents, and nothing is spread when there is nothing. */
  lemma NoCentsNoShares(nets: seq<nat>, d: nat, shares: seq<nat>)
    requires |shares| == |nets| && (d == 0 || forall i :: 0 <= i < |nets| ==> nets[i] == 0)
    requires forall i :: 0 <= i < |nets| ==> shares[i] == 0
    ensures IsCappedSplit(nets, d, shares)
  {
    forall i | 0 <= i < |nets|
      ensures var left := Sub(d, Sum(shares[..i]));
        shares[i] == Min(Min(if i == |nets| - 1 then left else d * nets[i] / Max(Sum(nets), 1), left), nets[i])
    {
      assert 0 * nets[i] / Max(Sum(nets), 1) == 0;
      DivBounds(d * nets[i], Max(Sum(nets), 1));
    }
  }

  lemma {:induction false} SumZero(s: seq<nat>)
    ensures Sum(s) == 0 <==> forall i :: 0 <= i < |s| ==> s[i] == 0
  {
    if s != [] {
      SumZero(s[1..]);
      assert forall i :: 0 < i < |s| ==> s[i] == s[1..][i - 1];
    }
  }

  lemma {:induction false} CappedSharesFit(nets: seq<nat>, quotas: seq<nat>, remaining: nat)
    requires |nets| == |quotas|
    ensures var shares := CappedShares(nets, quotas, remaining);
            && (forall i :: 0 <= i < |nets| ==> shares[i] <= nets[i])
            && Sum(shares) <= remaining
  {
    if nets != [] {
      var shares := CappedShares(nets, quotas, remaining);
      CappedSharesFit(nets[1..], quotas[1..], remaining - shares[0]);
      assert shares[1..] == CappedShares(nets[1..], quotas[1..], remaining - shares[0]);
    }
  }

  /** When no quota exceeds its line, every line but the last gets its quota. */
  lemma {:induction false} QuotasAreGiven(nets: seq<nat>, quotas: seq<nat>, remaining: nat)
    requires nets != [] && |nets| == |quotas| && Sum(quotas) <= remaining
    requires forall i :: 0 <= i < |nets| ==> quotas[i] <= nets[i]
    ensures var n := |nets| - 1;
            var shares := CappedShares(nets, quotas, remaining);
            && shares[..n] == quotas[..n]
            && Sum(quotas[..n]) <= remaining
            && shares[n] == Min(remaining - Sum(quotas[..n]), nets[n])
  {
    if |nets| > 1 {
      var n := |nets| - 1;
      var shares := CappedShares(nets, quotas, remaining);
      QuotasAreGiven(nets[1..], quotas[1..], remaining - quotas[0]);
      assert shares[..n] == [quotas[0]] + shares[1..][..n - 1];
      assert quotas[..n] == [quotas[0]] + quotas[1..][..n - 1];
    }
  }

  /** What the lines are given, told from what the quotas leave to the last. */
  lemma GivenSum(nets: seq<nat>, quotas: seq<nat>, d: nat)
    requires nets != [] && |nets| == |quotas| && Sum(quotas) <= d
    requires forall i :: 0 <= i < |nets| ==> quotas[i] <= nets[i]
    ensures var n := |nets| - 1;
            var front := Sum(quotas[..n]);
            front <= d && Sum(CappedShares(nets, quotas, d)) == front + Min(d - front, nets[n])
  {
    var n, shares := |nets| - 1, CappedShares(nets, quotas, d);
    QuotasAreGiven(nets, quotas, d);
    assert shares == shares[..n] + [shares[n]];
    SumAppend(shares[..n], [shares[n]]);
  }

  /** When every quota covers its line, every line is taken whole. */
  lemma {:induction false} LinesAreTakenWhole(nets: seq<nat>, quotas: seq<nat>, remaining: nat)
    requires |nets| == |quotas| && Sum(nets) <= remaining
    requires forall i :: 0 <= i < |nets| ==> nets[i] <= quotas[i]
    ensures CappedShares(nets, quotas, remaining) == nets
  {
    if nets != [] {
      LinesAreTakenWhole(nets[1..], quotas[1..], remaining - nets[0]);
      assert nets == [nets[0]] + nets[1..];
    }
  }

  lemma {:induction false} QuotasCover(es: seq<nat>, d: nat, total: nat)
    requires 0 < total <= d
    ensures forall i :: 0 <= i < |es| ==> es[i] <= Quotas(es, d, total)[i]
  {
    if es != [] {
      QuotasCover(es[1..], d, total);
      MulLe(es[0], total, d);
      Commute(es[0], d);
      Commute(es[0], total);
      DivMonotone(total * es[0], d * es[0], total);
      DivIs(total * es[0], total, es[0]);
    }
  }

  /**
    The capped split never takes more than a line's cents. It takes everything when the
    amount covers all lines, and otherwise at most the slack of the amount is not taken.
   */
  lemma CappedSplit(nets: seq<nat>, d: nat)
    requires Sum(nets) > 0
    ensures var shares := CappedShares(nets, Quotas(nets, d, Sum(nets)), d);
            && (forall i :: 0 <= i < |nets| ==> shares[i] <= nets[i])
            && (d >= Sum(nets) ==> shares == nets)
            && (d <= Sum(nets) ==> d - Slack(|nets|) <= Sum(shares) <= d)
  {
    var quotas := Quotas(nets, d, Sum(nets));
    var shares := CappedShares(nets, quotas, d);
    CappedSharesFit(nets, quotas, d);
    if d >= Sum(nets) {
      QuotasCover(nets, d, Sum(nets));
      LinesAreTakenWhole(nets, quotas, d);
    } else {
      QuotasFit(nets, d, Sum(nets));
      QuotasFitTotal(nets, d);
      RestBounds(nets, d);
      GivenSum(nets, quotas, d);
    }
  }
}
