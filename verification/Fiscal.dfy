/** The signed transaction of a sale: the same money as the order, derived a second time. */
module Fiscal {
  import opened Seqs
  import opened Pricing
  import opened Carts

  datatype FiscalLine = FiscalLine(lineId: Uuid, net: int, tax: int, gross: int, discount: int, taxInclusive: bool)

  datatype Tender = Tender(tenderId: Uuid, amount: int, tip: int)

  datatype FiscalTransaction = FiscalTransaction(
    lines: seq<FiscalLine>, tenders: seq<Tender>, net: int, tax: int, gross: int)

  /** Integer division of the source, which truncates toward zero. */
  function TruncDiv(a: int, b: int): int
    requires b > 0
  {
    if a >= 0 then a / b else -(-a / b)
  }

  function NetOf(price: int, tax: int, taxInclusive: bool): int {
    if taxInclusive then price - tax else price
  }

  function IntSum(s: seq<int>): int {
    if s == [] then 0 else s[0] + IntSum(s[1..])
  }

  function Nets(lines: seq<FiscalLine>): (out: seq<int>)
    ensures |out| == |lines| && forall i :: 0 <= i < |lines| ==> out[i] == lines[i].net
  {
    seq(|lines|, i requires 0 <= i < |lines| => lines[i].net)
  }

  function Taxes(lines: seq<FiscalLine>): (out: seq<int>)
    ensures |out| == |lines| && forall i :: 0 <= i < |lines| ==> out[i] == lines[i].tax
  {
    seq(|lines|, i requires 0 <= i < |lines| => lines[i].tax)
  }

  function Grosses(lines: seq<FiscalLine>): (out: seq<int>)
    ensures |out| == |lines| && forall i :: 0 <= i < |lines| ==> out[i] == lines[i].gross
  {
    seq(|lines|, i requires 0 <= i < |lines| => lines[i].gross)
  }

  function Amounts(tenders: seq<Tender>): (out: seq<int>)
    ensures |out| == |tenders| && forall i :: 0 <= i < |tenders| ==> out[i] == tenders[i].amount
  {
    seq(|tenders|, i requires 0 <= i < |tenders| => tenders[i].amount)
  }

  // ---- the basket discount ----

  function FiscalShare(net: int, last: bool, discount: int, total: int, remaining: int): int
    requires total > 0
  {
    Max(Min(Min(if last then remaining else TruncDiv(discount * net, total), net), remaining), 0)
  }

  /** Shares of the remaining lines, of which `remaining` cents are still to be given. */
  function FiscalShares(nets: seq<int>, discount: int, total: int, remaining: int): (shares: seq<int>)
    requires total > 0
    ensures |shares| == |nets|
  {
    if nets == [] then []
    else
      var share := FiscalShare(nets[0], |nets| == 1, discount, total, remaining);
      [share] + FiscalShares(nets[1..], discount, total, remaining - share)
  }

  function Discounted(l: FiscalLine, share: int): FiscalLine {
    l.(net := l.net - share, discount := l.discount + share, gross := l.net - share + l.tax)
  }

  function DiscountEach(lines: seq<FiscalLine>, shares: seq<int>): (out: seq<FiscalLine>)
    requires |shares| == |lines|
    ensures |out| == |lines| && forall i :: 0 <= i < |lines| ==> out[i] == Discounted(lines[i], shares[i])
  {
    seq(|lines|, i requires 0 <= i < |lines| => Discounted(lines[i], shares[i]))
  }

  function Allocated(lines: seq<FiscalLine>, discount: int): seq<FiscalLine> {
    var total := IntSum(Nets(lines));
    if discount <= 0 || lines == [] || total <= 0 then lines
    else DiscountEach(lines, FiscalShares(Nets(lines), discount, total, discount))
  }

  method AllocateBasketDiscount(a: array<FiscalLine>, discount: int)
    modifies a
    ensures a[..] == Allocated(old(a[..]), discount)
  {
    if discount <= 0 || a.Length == 0 {
      return;
    }
    ghost var lines := a[..];
    ghost var nets := Nets(lines);
    var total := IntSum(Nets(a[..]));
    if total <= 0 {
      return;
    }
    ghost var shares := FiscalShares(nets, discount, total, discount);
    var remaining := discount;
    for i := 0 to a.Length
      invariant forall j :: i <= j < a.Length ==> a[j] == lines[j]
      invariant forall j :: 0 <= j < i ==> a[j] == Discounted(lines[j], shares[j])
      invariant shares[i..] == FiscalShares(nets[i..], discount, total, remaining)
    {
      var share := FiscalShare(a[i].net, i == a.Length - 1, discount, total, remaining);
      assert nets[i..][1..] == nets[i + 1..];
      assert shares[i..][0] == shares[i] && shares[i..][1..] == shares[i + 1..];
      a[i] := Discounted(a[i], share);
      remaining := remaining - share;
    }
    assert a[..] == DiscountEach(lines, shares);
  }

  // ---- tenders ----

  /** Index of the last tender that can absorb `extra`, or the number of tenders. */
  function LastAtLeast(tenders: seq<Tender>, extra: int): (i: nat)
    ensures i <= |tenders|
    ensures i < |tenders| ==> tenders[i].amount >= extra
    ensures i < |tenders| ==> forall j :: i < j < |tenders| ==> tenders[j].amount < extra
    ensures i == |tenders| ==> forall j :: 0 <= j < |tenders| ==> tenders[j].amount < extra
  {
    if tenders == [] then 0
    else
      var n := |tenders| - 1;
      if tenders[n].amount >= extra then n
      else
        var i := LastAtLeast(tenders[..n], extra);
        if i == n then |tenders| else i
  }

  function Fitted(tenders: seq<Tender>, gross: int): seq<Tender> {
    var sum := IntSum(Amounts(tenders));
    if gross > 0 && sum > gross then
      var at := LastAtLeast(tenders, sum - gross);
      if at < |tenders| then tenders[at := tenders[at].(amount := tenders[at].amount - (sum - gross))]
      else tenders
    else tenders
  }

  method FitTendersToGross(a: array<Tender>, gross: int)
    modifies a
    ensures a[..] == Fitted(old(a[..]), gross)
  {
    var sum := IntSum(Amounts(a[..]));
    if a.Length == 0 || sum == gross {
      return;
    }
    if gross > 0 && sum > gross {
      var extra := sum - gross;
      ghost var tenders := a[..];
      var k := a.Length;
      while k > 0
        invariant 0 <= k <= a.Length && a[..] == tenders
        invariant forall j :: k <= j < a.Length ==> tenders[j].amount < extra
      {
        k := k - 1;
        if a[k].amount >= extra {
          assert LastAtLeast(tenders, extra) == k;
          a[k] := a[k].(amount := a[k].amount - extra);
          return;
        }
      }
    }
  }

  // ---- the sale ----

  function FiscalLineOf(l: Line): FiscalLine {
    var net := NetOf(Price(l), l.tax, l.taxInclusive);
    FiscalLine(l.lineId, net, l.tax, net + l.tax, l.discount, l.taxInclusive)
  }

  function FiscalLines(lines: seq<Line>): (out: seq<FiscalLine>)
    ensures |out| == |lines| && forall i :: 0 <= i < |lines| ==> out[i] == FiscalLineOf(lines[i])
  {
    seq(|lines|, i requires 0 <= i < |lines| => FiscalLineOf(lines[i]))
  }

  function TenderOf(p: Payment): Tender { Tender(p.tenderId, p.amount, p.tip) }

  function Tenders(payments: seq<Payment>): (out: seq<Tender>)
    ensures |out| == |payments| && forall i :: 0 <= i < |payments| ==> out[i] == TenderOf(payments[i])
  {
    seq(|payments|, i requires 0 <= i < |payments| => TenderOf(payments[i]))
  }

  function SaleOf(o: Order): FiscalTransaction {
    var lines := Allocated(FiscalLines(o.lines), CouponTotal(o.coupons));
    var gross := IntSum(Grosses(lines));
    FiscalTransaction(lines, Fitted(Tenders(o.payments), gross), IntSum(Nets(lines)), IntSum(Taxes(lines)), gross)
  }

  method SaleTransaction(o: Order) returns (t: FiscalTransaction)
    ensures t == SaleOf(o)
  {
    var built: seq<FiscalLine> := [];
    for i := 0 to |o.lines|
      invariant built == FiscalLines(o.lines)[..i]
    {
      var line := o.lines[i];
      var net := NetOf(Sub(line.lineTotal, line.discount), line.tax, line.taxInclusive);
      built := built + [FiscalLine(line.lineId, net, line.tax, net + line.tax, line.discount, line.taxInclusive)];
    }
    assert built == FiscalLines(o.lines);
    var lines := new FiscalLine[|built|](i requires 0 <= i < |built| => built[i]);
    assert lines[..] == built;
    AllocateBasketDiscount(lines, CouponTotal(o.coupons));
    var gross := IntSum(Grosses(lines[..]));
    var payments := Tenders(o.payments);
    var tenders := new Tender[|payments|](i requires 0 <= i < |payments| => payments[i]);
    assert tenders[..] == payments;
    FitTendersToGross(tenders, gross);
    t := FiscalTransaction(lines[..], tenders[..], IntSum(Nets(lines[..])), IntSum(Taxes(lines[..])), gross);
  }
}
