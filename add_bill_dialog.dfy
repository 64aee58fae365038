/**
 * `AddBillDialog` (src/components/AddBillDialog.tsx): the form's submit
 * guard and `parseInt` parsing, the installment preview and the key filter
 * of the two number inputs.
 */
module AddBillDialog {
  import opened Wrappers
  import opened Numbers
  import opened Text
  import opened Store
  import BH = BillsHook

  /** The form's text fields. */
  datatype BillForm = BillForm(name: string, totalAmount: string, installments: string, dueDate: string, category: string)

  const EMPTY_FORM: BillForm := BillForm("", "", "", "", "")

  /** The keys the two number inputs swallow. */
  const REJECTED_KEYS: seq<string> := ["-", "+", "e", "E", ".", ","]

  predicate KeyRejected(key: string) {
    key in REJECTED_KEYS
  }

  /** The characters a browser's number input lets the user type. */
  predicate NumberInputChar(c: char) {
    IsDigit(c) || c == '-' || c == '+' || c == 'e' || c == 'E' || c == '.' || c == ','
  }

  /** Text typed into a number input one key at a time, with the rejected keys swallowed. */
  predicate TypedThroughFilter(s: string) {
    forall i :: 0 <= i < |s| ==> NumberInputChar(s[i]) && !KeyRejected([s[i]])
  }

  /** The key filter leaves only digits, which parse to a non-negative whole number. */
  lemma KeyFilterLeavesDigits(s: string)
    requires TypedThroughFilter(s)
    ensures AllDigits(s)
    ensures s != [] ==> ParseInt(s) == Some(DigitsValue(s))
  {
    forall i | 0 <= i < |s| ensures IsDigit(s[i]) {
      assert NumberInputChar(s[i]) && !KeyRejected([s[i]]);
      assert [s[i]] != "-" && [s[i]] != "+" && [s[i]] != "e" && [s[i]] != "E" && [s[i]] != "." && [s[i]] != ",";
    }
    if s != [] {
      ParseIntOfDigits(s);
    }
  }

  /** `!formData.name || ... || !formData.category`: some required field is empty. */
  predicate Incomplete(f: BillForm) {
    f.name == "" || f.totalAmount == "" || f.installments == "" || f.dueDate == "" || f.category == ""
  }

  /**
   * `handleSubmit`: nothing when a field is empty; otherwise the bill
   * handed to `addBill`, with both numbers read by `parseInt`, and the
   * emptied form.
   */
  function Submit(f: BillForm): (r: (Option<BH.BillDraft>, BillForm))
    requires !Incomplete(f) ==> ParseInt(f.totalAmount).Some? && ParseInt(f.installments).Some?
    ensures Incomplete(f) <==> r.0.None?
    ensures r.0.None? ==> r.1 == f
    ensures r.0.Some? ==>
      && r.1 == EMPTY_FORM
      && r.0.value.name == f.name && r.0.value.dueDate == f.dueDate && r.0.value.category == f.category
      && r.0.value.totalAmount == ParseInt(f.totalAmount).value as real
      && r.0.value.installments == ParseInt(f.installments).value
  {
    if Incomplete(f) then (None, f)
    else
      var draft := BH.BillDraft(f.name, ParseInt(f.totalAmount).value as real, ParseInt(f.installments).value, f.dueDate, f.category);
      (Some(draft), EMPTY_FORM)
  }

  /** `parseFloat(totalAmount) / parseInt(installments)` when both are filled, otherwise 0. */
  function Preview(f: BillForm): (p: Num)
    ensures f.totalAmount == "" || f.installments == "" ==> p == Finite(0.0)
  {
    if f.totalAmount != "" && f.installments != "" then
      match ParseInt(f.installments)
      case Some(n) =>
        (match ParseFloat(f.totalAmount)
         case Finite(t) => Div(t, n as real)
         case _ => NaN)
      case None => NaN
    else Finite(0.0)
  }

  /** The preview is shown only for a positive installment. */
  predicate PreviewShown(f: BillForm) {
    Greater(Preview(f), 0.0)
  }

  /** Both numbers of a complete form typed through the key filter parse to their digits' value. */
  lemma FilteredFormParses(f: BillForm)
    requires TypedThroughFilter(f.totalAmount) && TypedThroughFilter(f.installments) && !Incomplete(f)
    ensures ParseInt(f.totalAmount) == Some(DigitsValue(f.totalAmount))
    ensures ParseInt(f.installments) == Some(DigitsValue(f.installments))
    ensures ParseFloat(f.totalAmount) == Finite(DigitsValue(f.totalAmount) as real)
  {
    KeyFilterLeavesDigits(f.totalAmount);
    KeyFilterLeavesDigits(f.installments);
    ParseOfDigits(f.totalAmount);
  }

  /**
   * For numbers typed through the key filter and at least one
   * installment, the preview is the installment the store keeps once the
   * submitted bill is added, and it is shown exactly when the total is
   * positive.
   */
  lemma PreviewMatchesStored(f: BillForm, owner: string)
    requires TypedThroughFilter(f.totalAmount) && TypedThroughFilter(f.installments)
    requires !Incomplete(f) && DigitsValue(f.installments) >= 1
    ensures ParseInt(f.totalAmount).Some? && ParseInt(f.installments).Some?
    ensures Submit(f).0.Some? && Submit(f).0.value.installments >= 1
    ensures Preview(f).Finite? && Preview(f).value == BH.NewBillRow(owner, Submit(f).0.value).montoCuota
    ensures PreviewShown(f) <==> DigitsValue(f.totalAmount) > 0
  {
    FilteredFormParses(f);
    var draft := Submit(f).0.value;
    assert Preview(f) == Div(draft.totalAmount, draft.installments as real);
    InstallmentAgrees(draft, owner);
  }

  /** Dividing the total by the count gives the stored installment, positive exactly when the total is. */
  lemma InstallmentAgrees(draft: BH.BillDraft, owner: string)
    requires draft.installments >= 1
    ensures Div(draft.totalAmount, draft.installments as real).Finite?
    ensures Div(draft.totalAmount, draft.installments as real).value == BH.NewBillRow(owner, draft).montoCuota
    ensures Greater(Div(draft.totalAmount, draft.installments as real), 0.0) <==> draft.totalAmount > 0.0
  {
    var n := draft.installments as real;
    var t := draft.totalAmount;
    var x := Div(t, n).value;
    var y := BH.NewBillRow(owner, draft).montoCuota;
    QuotientFacts(x, y, n, t);
  }

  lemma QuotientFacts(x: real, y: real, n: real, t: real)
    requires n > 0.0 && x * n == t && y * n == t
    ensures x == y && (x > 0.0 <==> t > 0.0)
  {
    assert (x - y) * n == 0.0;
    if x > 0.0 {
      assert x * n > 0.0;
    } else {
      assert x * n <= 0.0;
    }
  }
}
