/** The output format chosen for a downloaded source image (utils.py) and
    the Wagtail filter spec that resizes and re-encodes it (models.py). */
module ImageFormats {
  import opened AssetData

  /** `get_output_image_format(original_format, is_animated=...)`.
      As written, GIFs are converted to PNG only when `is_animated` is true,
      although the comment beside that line speaks of non-animated GIFs. */
  function GetOutputImageFormat(originalFormat: string, isAnimated: bool, customConversions: map<string, string>): (r: string)
    ensures originalFormat in customConversions ==> r == customConversions[originalFormat]
    ensures originalFormat !in customConversions ==>
      r == if originalFormat in {"avif", "bmp", "webp"} || (isAnimated && originalFormat == "gif") then "png"
           else originalFormat
  {
    var defaults := map["avif" := "png", "bmp" := "png", "webp" := "png"];
    var conversions := if isAnimated then defaults["gif" := "png"] else defaults;
    var merged := conversions + customConversions;
    if originalFormat in merged then merged[originalFormat] else originalFormat
  }

  predicate IsDigit(c: char) {
    '0' <= c <= '9'
  }

  /** Decimal digits of `n`, as Python's str() writes a non-negative int. */
  function NatToString(n: nat): (s: string)
    ensures |s| >= 1
    ensures forall i :: 0 <= i < |s| ==> IsDigit(s[i])
  {
    var digit := ['0' + (n % 10) as char];
    if n < 10 then digit else NatToString(n / 10) + digit
  }

  const JPEG_SUFFIX: string := " format-jpeg jpegquality-90"

  /** "max-{W}x{H}" for the configured maximum source size. */
  function MaxSizeSpec(s: Settings): string {
    "max-" + NatToString(MaxSourceImageWidth(s)) + "x" + NatToString(MaxSourceImageHeight(s))
  }

  /** `BynderSyncedImage.get_source_image_filter_string`. */
  function GetSourceImageFilterString(s: Settings, originalFormat: string, isAnimated: bool): (filter: string)
    ensures MaxSizeSpec(s) <= filter
    ensures filter == MaxSizeSpec(s) || filter == MaxSizeSpec(s) + JPEG_SUFFIX
  {
    var spec := MaxSizeSpec(s);
    if GetOutputImageFormat(originalFormat, isAnimated, s.formatConversions) == "jpeg" then spec + JPEG_SUFFIX
    else spec
  }

  lemma MaxSizeSpecHasNoSpace(s: Settings)
    ensures forall i :: 0 <= i < |MaxSizeSpec(s)| ==> MaxSizeSpec(s)[i] != ' '
  {
    var w := NatToString(MaxSourceImageWidth(s));
    var h := NatToString(MaxSourceImageHeight(s));
    assert MaxSizeSpec(s) == "max-" + w + "x" + h;
    forall i | 0 <= i < |MaxSizeSpec(s)|
      ensures MaxSizeSpec(s)[i] != ' '
    {
      if i < 4 {
      } else if i < 4 + |w| {
        assert MaxSizeSpec(s)[i] == w[i - 4];
      } else if i == 4 + |w| {
      } else {
        assert MaxSizeSpec(s)[i] == h[i - 5 - |w|];
      }
    }
  }

  /** The filter always starts with the size limit, and asks for JPEG at
      quality 90 exactly when the output format is JPEG. */
  lemma FilterStringAsksForJpegIffJpeg(s: Settings, originalFormat: string, isAnimated: bool)
    ensures var filter := GetSourceImageFilterString(s, originalFormat, isAnimated);
      && filter[..|MaxSizeSpec(s)|] == MaxSizeSpec(s)
      && (GetOutputImageFormat(originalFormat, isAnimated, s.formatConversions) == "jpeg" <==>
          (|filter| >= |JPEG_SUFFIX| && filter[|filter| - |JPEG_SUFFIX|..] == JPEG_SUFFIX))
  {
    var spec := MaxSizeSpec(s);
    var filter := GetSourceImageFilterString(s, originalFormat, isAnimated);
    if GetOutputImageFormat(originalFormat, isAnimated, s.formatConversions) != "jpeg" {
      assert filter == spec;
      MaxSizeSpecHasNoSpace(s);
      assert |filter| >= |JPEG_SUFFIX| ==> filter[|filter| - |JPEG_SUFFIX|..][0] != JPEG_SUFFIX[0];
    } else {
      assert filter == spec + JPEG_SUFFIX;
      assert filter[..|spec|] == spec;
    }
  }

  /** With no custom conversions, an animated GIF is converted to PNG and a
      still one is kept (the behaviour the code has, which the comment beside
      it contradicts). */
  lemma GifConvertedOnlyWhenAnimated()
    ensures GetOutputImageFormat("gif", true, map[]) == "png"
    ensures GetOutputImageFormat("gif", false, map[]) == "gif"
  {
  }
}
