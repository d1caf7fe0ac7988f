/** Splitting a GST-inclusive amount, in paise, into the base and the 18% tax, and the tax into its lines. */
module Gst {
  import opened Common

  datatype BaseAndGst = BaseAndGst(base: int, gst: int)
  datatype GstSplit = GstSplit(cgst: int, sgst: int, igst: int)

  /** `Math.round(n / d)`: nearest, with halves rounded up. */
  function RoundDiv(n: int, d: int): int
    requires d > 0
  {
    (2 * n + d) / (2 * d)
  }

  /** A quotient is the one integer that leaves a remainder in range. */
  lemma QuotientIff(a: int, d: nat, q: int)
    requires d > 0
    ensures q == a / d <==> d * q <= a < d * q + d
  {
    var x := a / d;
    assert a == d * x + a % d;
    if q < x {
      TimesIsMonotone(d, q + 1, x);
    } else if q > x {
      TimesIsMonotone(d, x + 1, q);
    }
  }

  /** The rounded quotient is the one integer within half of the quotient (halves go up). */
  lemma RoundDivIsNearest(n: int, d: nat, q: int)
    requires d > 0
    ensures q == RoundDiv(n, d) <==> 2 * d * q - d <= 2 * n < 2 * d * q + d
  {
    QuotientIff(2 * n + d, 2 * d, q);
  }

  function DeriveBaseAndGst(total: nat): BaseAndGst
  {
    var base := RoundDiv(total * 100, 118);
    BaseAndGst(base, total - base)
  }

  function WithGst(base: nat): nat { base + RoundDiv(base * 18, 100) }

  /** The tax on a base is 18% of it to within half a paisa. */
  lemma TaxBounds(base: nat)
    ensures var gst := RoundDiv(base * 18, 100); 200 * gst - 100 <= 36 * base < 200 * gst + 100
  {
    RoundDivIsNearest(base * 18, 100, RoundDiv(base * 18, 100));
  }

  /** The derived base is the one whole amount within half a paisa of total * 100 / 118. */
  lemma BaseIff(total: nat, base: int)
    ensures base == DeriveBaseAndGst(total).base <==> 236 * base - 118 <= 200 * total < 236 * base + 118
  {
    RoundDivIsNearest(total * 100, 118, base);
  }

  /** Adding the tax to a base amount and taking it out again gives the base amount back. */
  lemma TaxRoundTrip(base: nat)
    ensures DeriveBaseAndGst(WithGst(base)) == BaseAndGst(base, RoundDiv(base * 18, 100))
  {
    TaxBounds(base);
    BaseIff(WithGst(base), base);
  }

  /** Nothing is lost, nothing is negative, and the tax is 18% of the base to within 59 hundredths of a paisa. */
  lemma TaxIsEighteenPercent(total: nat)
    ensures var r := DeriveBaseAndGst(total);
            r.base + r.gst == total && r.base >= 0 && r.gst >= 0 && -59 <= 100 * r.gst - 18 * r.base <= 59
  {
    BaseIff(total, DeriveBaseAndGst(total).base);
  }

  /** No other whole base is as close: the derived one is the nearest to total * 100 / 118, which is never a tie. */
  lemma BaseIsNearest(total: nat, other: int)
    ensures var base := DeriveBaseAndGst(total).base;
            other == base || Distance(118 * base, 100 * total) < Distance(118 * other, 100 * total)
  {
    BaseIff(total, DeriveBaseAndGst(total).base);
    BaseIff(total, other);
    var base := DeriveBaseAndGst(total).base;
    assert 118 * base - 100 * total != 59 && 118 * base - 100 * total != -59;
  }

  function Distance(a: int, b: int): nat { if a < b then b - a else a - b }

  function SplitGst(gst: int, intraState: bool): (r: GstSplit)
    ensures r.cgst + r.sgst + r.igst == gst
    ensures intraState ==> r.igst == 0 && 0 <= r.sgst - r.cgst <= 1
    ensures !intraState ==> r.cgst == r.sgst == 0
  {
    if !intraState then GstSplit(0, 0, gst) else GstSplit(gst / 2, gst - gst / 2, 0)
  }

  /** The lines of an invoice re-sum to the amount charged. */
  lemma InvoiceAddsUp(total: nat, intraState: bool)
    ensures var r := DeriveBaseAndGst(total);
            var lines := SplitGst(r.gst, intraState);
            r.base + lines.cgst + lines.sgst + lines.igst == total && lines.cgst >= 0 && lines.sgst >= 0
                && lines.igst >= 0
  {
    TaxIsEighteenPercent(total);
  }
}
