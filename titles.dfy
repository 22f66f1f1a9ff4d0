/**
  `parse_titles(html)`: the texts of the page's anchors, in document order,
  with surrounding whitespace stripped and empty ones dropped. The HTML
  parser is not modelled: the method receives the anchor texts BeautifulSoup
  finds (an anchor without text gives the empty string).
*/
module Titles {
  import opened Text

  method ParseTitles(anchorTexts: seq<string>) returns (titles: seq<string>)
    ensures titles == StrippedNonEmpty(anchorTexts)
    ensures |titles| <= |anchorTexts|
    ensures forall t :: t in titles ==> t != [] && IsStripped(t)
  {
    titles := [];
    var i := 0;
    while i < |anchorTexts|
      invariant 0 <= i <= |anchorTexts|
      invariant titles == StrippedNonEmpty(anchorTexts[..i])
    {
      var text := Strip(anchorTexts[i]);
      if text != [] {
        titles := titles + [text];
      }
      i := i + 1;
      assert anchorTexts[..i][..i - 1] == anchorTexts[..i - 1];
    }
    assert anchorTexts[..i] == anchorTexts;
  }
}
