/**
 * `BillsSection` (src/components/BillsSection.tsx): what the bill card
 * shows for each bill — paid share, remaining amount, whether the quick
 * payment button is offered — and which of loading message, empty message
 * or list it shows.
 */
module BillsSection {
  import opened Numbers
  import opened Entities
  import BH = BillsHook
  import Dashboard

  /** The figures one bill row shows. */
  datatype BillView = BillView(progress: Num, remaining: real, quickPay: bool)

  /** What the card body shows. */
  datatype Panel = LoadingMessage | EmptyMessage | BillList(rows: seq<BillView>)

  /** `(paidInstallments / installments) * 100`. */
  function PaidShare(b: Bill): (p: Num)
    ensures b.installments != 0 ==> p.Finite? && p.value * b.installments as real == b.paidInstallments as real * 100.0
    ensures b.installments == 0 ==> !p.Finite?
  {
    var q := Div(b.paidInstallments as real, b.installments as real);
    var p := Scale(q, 100.0);
    if b.installments == 0 then p
    else
      assert q.value * b.installments as real == b.paidInstallments as real;
      assert p.value * b.installments as real == q.value * b.installments as real * 100.0;
      p
  }

  /** `(installments - paidInstallments) * installmentAmount`, not clamped at zero. */
  function Remaining(b: Bill): (r: real)
    ensures b.paidInstallments == b.installments ==> r == 0.0
    ensures b.paidInstallments < b.installments && b.installmentAmount > 0.0 ==> r > 0.0
    ensures b.paidInstallments > b.installments && b.installmentAmount > 0.0 ==> r < 0.0
  {
    (b.installments - b.paidInstallments) as real * b.installmentAmount
  }

  /** The row for one bill; the quick payment button is shown while installments are left. */
  function View(b: Bill): (v: BillView)
    ensures v.quickPay <==> BH.Payable(b)
    ensures v.progress == PaidShare(b) && v.remaining == Remaining(b)
  {
    BillView(PaidShare(b), Remaining(b), b.paidInstallments < b.installments)
  }

  /** The card body: the loading message first, then the empty message, then one row per bill. */
  function Body(bills: seq<Bill>, loading: bool): (p: Panel)
    ensures loading ==> p == LoadingMessage
    ensures !loading && bills == [] ==> p == EmptyMessage
    ensures !loading && bills != [] ==>
      && p.BillList? && |p.rows| == |bills|
      && forall i :: 0 <= i < |bills| ==> p.rows[i] == View(bills[i])
  {
    if loading then LoadingMessage
    else if bills == [] then EmptyMessage
    else BillList(seq(|bills|, i requires 0 <= i < |bills| => View(bills[i])))
  }

  /** A paid-off bill shows 100 % and nothing remaining, and offers no quick payment. */
  lemma PaidOffView(b: Bill)
    requires b.installments > 0 && b.paidInstallments == b.installments
    ensures View(b).progress == Finite(100.0) && View(b).remaining == 0.0 && !View(b).quickPay
  {
    var p := PaidShare(b);
    assert p.value * b.installments as real == b.installments as real * 100.0;
  }

  /** For an in-range bill the paid share lies between 0 and 100 and grows with each installment paid. */
  lemma PaidShareBounds(b: Bill)
    requires b.installments > 0 && BH.InRange(b)
    ensures 0.0 <= PaidShare(b).value <= 100.0
    ensures BH.Payable(b) ==> PaidShare(b).value < PaidShare(b.(paidInstallments := b.paidInstallments + 1)).value
  {
    var n := b.installments as real;
    var p := PaidShare(b).value;
    ShareWithin(p, n, b.paidInstallments as real);
    if BH.Payable(b) {
      var q := PaidShare(b.(paidInstallments := b.paidInstallments + 1)).value;
      ShareGrows(p, q, n, b.paidInstallments as real);
    }
  }

  /** A share `p` of `n` with `p * n == k * 100` lies in [0, 100] when `k` does in [0, n]. */
  lemma ShareWithin(p: real, n: real, k: real)
    requires n > 0.0 && 0.0 <= k <= n && p * n == k * 100.0
    ensures 0.0 <= p <= 100.0
  {
    assert (100.0 - p) * n == (n - k) * 100.0;
  }

  /** One more installment paid gives a larger share. */
  lemma ShareGrows(p: real, q: real, n: real, k: real)
    requires n > 0.0 && p * n == k * 100.0 && q * n == (k + 1.0) * 100.0
    ensures p < q
  {
    assert (q - p) * n == 100.0;
  }

  /**
   * The remaining amount agrees with the bill's share of the pending debt
   * while installments are left and the installment is non-negative; past
   * the last installment the pending debt stays at zero while the remaining
   * amount shown goes negative.
   */
  lemma RemainingVersusDebt(b: Bill)
    ensures BH.Payable(b) && b.installmentAmount >= 0.0 ==> Remaining(b) == Dashboard.Outstanding(b)
    ensures b.paidInstallments > b.installments && b.installmentAmount > 0.0 ==>
      Dashboard.Outstanding(b) == 0.0 && Remaining(b) < 0.0
  {
  }

  /** The button disappears exactly after the quick payment that pays the last installment. */
  lemma QuickPayUntilPaidOff(b: Bill)
    requires BH.InRange(b)
    ensures !View(BH.PayTimes(b, b.installments - b.paidInstallments)).quickPay
  {
    BH.PaymentsPayOff(b, b.installments - b.paidInstallments);
  }
}
