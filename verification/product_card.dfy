/** The catalog card's description preview (src/components/products/ProductCard.tsx). */
module ProductCard {

  const PreviewLength := 80

  /** Descriptions longer than 80 characters are cut to 80 and marked with "...". */
  function Truncate(d: string): (shown: string)
    ensures |d| <= PreviewLength ==> shown == d
    ensures |d| > PreviewLength ==> |shown| == PreviewLength + 3 && shown[PreviewLength..] == "..."
    ensures |shown| <= PreviewLength + 3
    ensures |d| > PreviewLength ==> shown[..PreviewLength] == d[..PreviewLength]
  {
    if |d| > PreviewLength then d[..PreviewLength] + "..." else d
  }

  /** Cutting an already cut preview changes nothing. */
  lemma TruncateIdempotent(d: string)
    ensures Truncate(Truncate(d)) == Truncate(d)
  {
    if |d| > PreviewLength {
      var t := Truncate(d);
      assert t == t[..PreviewLength] + t[PreviewLength..];
    }
  }
}
