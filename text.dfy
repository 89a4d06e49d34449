/** Text helper of the product table. */
module Text {
  import opened Js

  /** `truncateText(text, max)`: a text longer than `max` characters is cut to
      its first `max` characters followed by "...". */
  function TruncateText(text: string, max: nat): (r: string)
    ensures |text| <= max ==> r == text
    ensures |text| > max ==> |r| == max + 3 && r[..max] == text[..max] && r[max..] == "..."
    ensures |r| <= max + 3
    ensures r[..Min(|text|, max)] == text[..Min(|text|, max)]
  {
    if |text| > max then text[..max] + "..." else text
  }
}
