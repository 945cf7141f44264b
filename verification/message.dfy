/** Message assembly: the user's text (missing or empty counts as `""`),
    followed by the OCR text of an uploaded image under a fixed labelled
    separator when that text is not blank. */
module Message {
  import opened Results
  import opened Text
  import Denylist

  /** The label placed between the user's text and the recognised text. */
  const OcrSeparator: string := "\n\n[Extracted text from image]:\n"

  /** `ocrText && ocrText.trim()`: the recognised text is worth appending. */
  function HasOcrText(ocr: Option<string>): (b: bool)
    ensures b <==> ocr.Some? && !IsBlank(ocr.value)
  {
    ocr.Some? && ocr.value != "" && Trim(ocr.value) != ""
  }

  /** The message sent to the filter and upstream. `text` is the request's
      text field; `ocr` is the recognised text, `None` when no image was
      uploaded. */
  function Merge(text: Option<string>, ocr: Option<string>): (m: string)
    ensures ocr.None? || IsBlank(ocr.value) ==> m == OrElse(text, "")
    ensures ocr.Some? && !IsBlank(ocr.value) ==> m == OrElse(text, "") + OcrSeparator + ocr.value
  {
    var base := OrElse(text, "");
    if HasOcrText(ocr) then base + OcrSeparator + ocr.value else base
  }

  /** Recognised text cannot unblock a refused text. */
  lemma MergeKeepsTextBan(text: Option<string>, ocr: Option<string>)
    requires Denylist.IsBanned(OrElse(text, ""))
    ensures Denylist.IsBanned(Merge(text, ocr))
  {
    var base := OrElse(text, "");
    var m := Merge(text, ocr);
    assert m == "" + base + m[|base|..];
    Denylist.BannedInContext("", base, m[|base|..]);
  }

  /** Recognised text holding a banned phrase gets the whole message
      refused, whatever the user typed. */
  lemma MergeKeepsOcrBan(text: Option<string>, ocr: Option<string>)
    requires ocr.Some? && Denylist.IsBanned(ocr.value)
    ensures Denylist.IsBanned(Merge(text, ocr))
  {
    BannedHasNonBlank(ocr.value);
    var base := OrElse(text, "");
    Denylist.BannedInContext(base + OcrSeparator, ocr.value, "");
    assert base + OcrSeparator + ocr.value + "" == Merge(text, ocr);
  }

  /** A message holding a banned phrase holds a character `trim` keeps. */
  lemma BannedHasNonBlank(s: string)
    requires Denylist.IsBanned(s)
    ensures !IsBlank(s)
  {
    assert Denylist.IsBanned(s);
    var k :| 0 <= k < |Denylist.BannedPhrases| && Occurs(Denylist.BannedPhrases[k], s);
    var p := Denylist.BannedPhrases[k];
    var i :| OccursAt(p, s, i);
    assert s[i] == p[0];
    assert 'A' <= p[0] <= 'Z' by {
      Denylist.PhrasesStartCapitalised(k);
    }
  }
}
