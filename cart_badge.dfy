/**
 * The cart badge (src/components/cart/CartBadge.tsx): a number over the
 * cart icon, capped at '99+', and an accessible label that always carries
 * the exact count.
 */
module CartBadge {
  import opened Types
  import opened Text

  /** The text in the badge; no badge at all for a count of 0 or less. */
  function BadgeText(count: int): (r: Option<string>)
    ensures r.None? <==> count <= 0
    ensures 1 <= count <= 99 ==> r.Some? && IsIntLiteral(r.value) && ParseInt(r.value) == count
    ensures count > 99 ==> r == Some("99+")
    ensures r.Some? ==> 1 <= |r.value| <= 3
  {
    if count > 0 then
      if count > 99 then Some("99+")
      else
        IntRoundTrip(count);
        Some(IntToString(count))
    else None
  }

  const LabelPrefix: string := "购物车，"
  const LabelSuffix: string := " 件商品"

  /** `购物车，${count} 件商品`. */
  function AriaLabel(count: int): (r: string)
    ensures |r| > |LabelPrefix| + |LabelSuffix|
    ensures r[..|LabelPrefix|] == LabelPrefix && r[|r| - |LabelSuffix|..] == LabelSuffix
  {
    LabelPrefix + IntToString(count) + LabelSuffix
  }

  /** The count can be read back from the label, whatever it is, also above 99. */
  lemma AriaLabelCarriesCount(count: int)
    ensures var shown := AriaLabel(count);
            var middle := shown[|LabelPrefix|..|shown| - |LabelSuffix|];
            IsIntLiteral(middle) && ParseInt(middle) == count
  {
    var shown := AriaLabel(count);
    assert shown[|LabelPrefix|..|shown| - |LabelSuffix|] == IntToString(count);
    IntRoundTrip(count);
  }

  /** Counts above 99 share one badge text, but never one label. */
  lemma BadgeCapsButLabelDoesNot(a: int, b: int)
    requires a > 99 && b > 99 && a != b
    ensures BadgeText(a) == BadgeText(b)
    ensures AriaLabel(a) != AriaLabel(b)
  {
    AriaLabelCarriesCount(a);
    AriaLabelCarriesCount(b);
  }
}
