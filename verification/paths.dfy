/** URL path handling from utils.py: `filename_from_url` (Python's
    `os.path.basename`) and `str.split("/")`, which the video model uses to
    name derivatives. */
module Paths {
  import opened Wrappers

  predicate NoSlash(s: string) {
    forall i :: 0 <= i < |s| ==> s[i] != '/'
  }

  /** Index of the last '/' in `s` (Python's `s.rfind("/")`), if any. */
  function LastSlash(s: string): (r: Option<nat>)
    ensures r.None? <==> NoSlash(s)
    ensures r.Some? ==> r.value < |s| && s[r.value] == '/' && NoSlash(s[r.value + 1..])
  {
    if |s| == 0 then None
    else if s[|s| - 1] == '/' then Some(|s| - 1)
    else
      var r := LastSlash(s[..|s| - 1]);
      assert forall i :: 0 <= i < |s| - 1 ==> s[..|s| - 1][i] == s[i];
      if r.Some? then
        assert forall i :: r.value + 1 <= i < |s| - 1 ==> s[..|s| - 1][i] == s[i];
        r
      else r
  }

  /** `filename_from_url(url)`: the text after the last '/'. */
  function FilenameFromUrl(url: string): (name: string)
    ensures NoSlash(name)
    ensures |name| <= |url| && url[|url| - |name|..] == name
    ensures NoSlash(url) ==> name == url
  {
    match LastSlash(url)
    case None => url
    case Some(i) => url[i + 1..]
  }

  /** Python's `s.split("/")`. */
  function Split(s: string): (parts: seq<string>)
    ensures |parts| >= 1
    decreases |s|
  {
    match LastSlash(s)
    case None => [s]
    case Some(i) => Split(s[..i]) + [s[i + 1..]]
  }

  /** Python's `"/".join(parts)`. */
  function Join(parts: seq<string>): string
    requires |parts| >= 1
  {
    if |parts| == 1 then parts[0]
    else Join(parts[..|parts| - 1]) + "/" + parts[|parts| - 1]
  }

  /** Splitting on '/' and joining again gives back the original text. */
  lemma {:induction false} JoinSplit(s: string)
    ensures Join(Split(s)) == s
    decreases |s|
  {
    match LastSlash(s)
    case None =>
    case Some(i) =>
      JoinSplit(s[..i]);
      var parts := Split(s);
      assert parts[..|parts| - 1] == Split(s[..i]);
      assert s == s[..i] + "/" + s[i + 1..];
  }

  /** No part of a split contains a '/'. */
  lemma {:induction false} SplitPartsHaveNoSlash(s: string)
    ensures forall k :: 0 <= k < |Split(s)| ==> NoSlash(Split(s)[k])
    decreases |s|
  {
    match LastSlash(s)
    case None =>
    case Some(i) =>
      SplitPartsHaveNoSlash(s[..i]);
  }

  /** `filename_from_url` is the last part of the split, so the two helpers
      agree. */
  lemma FilenameIsLastPart(url: string)
    ensures FilenameFromUrl(url) == Split(url)[|Split(url)| - 1]
  {
  }

  /** Taking the file name of a file name changes nothing. */
  lemma FilenameFromUrlIdempotent(url: string)
    ensures FilenameFromUrl(FilenameFromUrl(url)) == FilenameFromUrl(url)
  {
  }

  /** The derivative name of a video URL: `url.split("/")[-2]`, which raises
      IndexError when the URL contains no '/'. */
  function DerivativeName(url: string): (r: Option<string>)
    ensures r.None? <==> NoSlash(url)
    ensures r.Some? ==> NoSlash(r.value)
  {
    var parts := Split(url);
    SplitPartsHaveNoSlash(url);
    if |parts| >= 2 then Some(parts[|parts| - 2]) else None
  }
}
