/** Carts as the demo data API returns them, and the display rules the sales
    table and the dashboard's recent-orders list share: the padded order
    number and the status that cycles with the row index. */
module Carts {
  import opened Text

  /** A cart (`Cart` in `src/types/api.ts`); money amounts are exact reals
      here, not floating point. The per-product lines are not modelled. */
  datatype Cart = Cart(
    id: nat,
    userId: nat,
    total: real,
    discountedTotal: real,
    totalProducts: nat,
    totalQuantity: nat)

  /** `'#ORD-' + String(id).padStart(3, '0')`. */
  function OrderLabel(id: nat): (r: string)
    ensures StartsWith(r, "#ORD-")
    ensures |r| == 5 + if |NatToString(id)| >= 3 then |NatToString(id)| else 3
    ensures forall i :: 5 <= i < |r| ==> IsDigit(r[i])
  {
    "#ORD-" + PadStart(NatToString(id), 3, '0')
  }

  /** The order number can be read back from its label: the digits after
      "#ORD-" have the value of the cart id. Distinct carts therefore get
      distinct labels. */
  lemma OrderLabelRoundTrip(id: nat)
    ensures var digits := OrderLabel(id)[5..];
      (forall i :: 0 <= i < |digits| ==> IsDigit(digits[i])) && DigitsValue(digits) == id
  {
    var s := NatToString(id);
    var digits := OrderLabel(id)[5..];
    assert digits == PadStart(s, 3, '0');
    NatToStringRoundTrip(id);
    LeadingZerosKeepValue(digits, |digits| - |s|);
  }

  /** Zeros in front of a digit string do not change its value. */
  lemma {:induction false} LeadingZerosKeepValue(s: string, k: nat)
    requires forall i :: 0 <= i < |s| ==> IsDigit(s[i])
    requires k <= |s|
    requires forall i :: 0 <= i < k ==> s[i] == '0'
    ensures DigitsValue(s) == DigitsValue(s[k..])
    decreases |s|
  {
    if k < |s| {
      LeadingZerosKeepValue(s[..|s| - 1], k);
      assert s[..|s| - 1][k..] == s[k..][..|s[k..]| - 1];
    } else {
      assert s[k..] == [];
      ZerosHaveValueZero(s);
    }
  }

  lemma {:induction false} ZerosHaveValueZero(s: string)
    requires forall i :: 0 <= i < |s| ==> s[i] == '0'
    ensures forall i :: 0 <= i < |s| ==> IsDigit(s[i])
    ensures DigitsValue(s) == 0
    decreases |s|
  {
    if |s| > 0 {
      ZerosHaveValueZero(s[..|s| - 1]);
    }
  }

  /** Distinct cart ids give distinct order labels. */
  lemma OrderLabelInjective(a: nat, b: nat)
    requires OrderLabel(a) == OrderLabel(b)
    ensures a == b
  {
    OrderLabelRoundTrip(a);
    OrderLabelRoundTrip(b);
  }

  /** The status both order lists show: completed, processing, pending, by
      row index modulo 3. */
  datatype OrderStatus = Completed | Processing | Pending

  function StatusForRow(index: nat): (r: OrderStatus)
    ensures r == Completed <==> index % 3 == 0
    ensures r == Processing <==> index % 3 == 1
    ensures r == Pending <==> index % 3 == 2
  {
    if index % 3 == 0 then Completed else if index % 3 == 1 then Processing else Pending
  }

  /** The cycle has period 3 and visits the three statuses in order. */
  lemma StatusCycles(index: nat)
    ensures StatusForRow(index + 3) == StatusForRow(index)
    ensures StatusForRow(index) == Completed ==> StatusForRow(index + 1) == Processing
    ensures StatusForRow(index) == Processing ==> StatusForRow(index + 1) == Pending
    ensures StatusForRow(index) == Pending ==> StatusForRow(index + 1) == Completed
  {
  }

  /** The discount column: `total - discountedTotal`. */
  function Discount(c: Cart): real
  {
    c.total - c.discountedTotal
  }
}
