/**
 * The upload slot's file-change handler (components/ImageUploader.tsx):
 * the data URL produced by reading the selected file is split on `,`, the
 * MIME type is taken from the first field with the regular expression
 * /:(.*?);/ (falling back to `application/octet-stream`), the base64
 * payload is the second field, and the whole URL is kept as the preview.
 */
module ImageUploader {
  import opened Types

  const DefaultMimeType: string := "application/octet-stream"

  // ---------------------------------------------------------------------
  // String.prototype.split with a one-character separator
  // ---------------------------------------------------------------------

  /** Index of the first occurrence of `c` in `s`. */
  function FirstIndex(s: string, c: char): (k: nat)
    requires c in s
    ensures k < |s| && s[k] == c
    ensures forall j :: 0 <= j < k ==> s[j] != c
  {
    if s[0] == c then 0 else FirstIndex(s[1..], c) + 1
  }

  /** The inverse of Split: the parts glued back together with `sep`. */
  function Join(parts: seq<string>, sep: char): string
  {
    if |parts| == 0 then ""
    else if |parts| == 1 then parts[0]
    else parts[0] + [sep] + Join(parts[1..], sep)
  }

  /**
   * `s.split(sep)`: the maximal runs of `s` between occurrences of `sep`,
   * so there is always at least one part (the empty string splits to [""]).
   */
  function Split(s: string, sep: char): (parts: seq<string>)
    ensures |parts| >= 1
    ensures forall i :: 0 <= i < |parts| ==> sep !in parts[i]
    ensures Join(parts, sep) == s
    decreases |s|
  {
    if sep !in s then [s]
    else
      var k := FirstIndex(s, sep);
      var rest := Split(s[k + 1..], sep);
      assert ([s[..k]] + rest)[1..] == rest;
      assert s == s[..k] + [sep] + s[k + 1..];
      [s[..k]] + rest
  }

  /** In `a + [sep] + tail` with `sep` not in `a`, the first separator is the one after `a`. */
  lemma FirstIndexAfterPrefix(a: string, sep: char, tail: string)
    requires sep !in a
    ensures FirstIndex(a + [sep] + tail, sep) == |a|
  {
    var s := a + [sep] + tail;
    var k := FirstIndex(s, sep);
    assert s[|a|] == sep;
    assert s[..|a|] == a;
  }

  /** Splitting undoes joining parts that do not contain the separator. */
  lemma {:induction false} SplitJoin(parts: seq<string>, sep: char)
    requires |parts| >= 1
    requires forall i :: 0 <= i < |parts| ==> sep !in parts[i]
    ensures Split(Join(parts, sep), sep) == parts
  {
    if |parts| > 1 {
      var s := Join(parts, sep);
      var tail := Join(parts[1..], sep);
      assert s == parts[0] + [sep] + tail;
      FirstIndexAfterPrefix(parts[0], sep, tail);
      var k := |parts[0]|;
      assert s[..k] == parts[0];
      assert s[k + 1..] == tail;
      assert Split(s, sep) == [parts[0]] + Split(tail, sep);
      SplitJoin(parts[1..], sep);
      assert parts == [parts[0]] + parts[1..];
    }
  }

  // ---------------------------------------------------------------------
  // The regular expression /:(.*?);/ and its first capture group
  // ---------------------------------------------------------------------

  /** The characters that `.` in a JavaScript regular expression does not match. */
  predicate IsLineTerminator(c: char)
  {
    c == '\n' || c == '\r' || c == '\U{2028}' || c == '\U{2029}'
  }

  /** `.` matches every character of s[i..j]. */
  ghost predicate DotMatches(s: string, i: nat, j: nat)
    requires i <= j <= |s|
  {
    forall k :: i <= k < j ==> !IsLineTerminator(s[k])
  }

  /**
   * Where the lazy group `(.*?)` that starts at `i` ends: the first `;` at or
   * after `i` that is reached without crossing a line terminator.
   */
  function LazyGroupEnd(s: string, i: nat): (r: Option<nat>)
    requires i <= |s|
    ensures r.Some? ==> i <= r.value < |s| && s[r.value] == ';' && DotMatches(s, i, r.value)
    ensures r.Some? ==> forall j :: i <= j < r.value ==> s[j] != ';'
    ensures r.None? ==> forall j :: i <= j < |s| && s[j] == ';' ==> !DotMatches(s, i, j)
    decreases |s| - i
  {
    if i == |s| then None
    else if s[i] == ';' then Some(i)
    else if IsLineTerminator(s[i]) then None
    else LazyGroupEnd(s, i + 1)
  }

  /** The whole pattern /:(.*?);/ matches starting at position `p`. */
  predicate MatchesAt(s: string, p: nat)
    requires p < |s|
  {
    s[p] == ':' && LazyGroupEnd(s, p + 1).Some?
  }

  /** The leftmost position at or after `from` where the pattern matches. */
  function LeftmostMatch(s: string, from: nat): (r: Option<nat>)
    requires from <= |s|
    ensures r.Some? ==> from <= r.value < |s| && MatchesAt(s, r.value)
    ensures r.Some? ==> forall q :: from <= q < r.value ==> !MatchesAt(s, q)
    ensures r.None? ==> forall q :: from <= q < |s| ==> !MatchesAt(s, q)
    decreases |s| - from
  {
    if from == |s| then None
    else if MatchesAt(s, from) then Some(from)
    else LeftmostMatch(s, from + 1)
  }

  /**
   * `head.match(/:(.*?);/)?.[1]`: the first capture group of the leftmost
   * match. There is one exactly when the pattern matches somewhere, and it
   * holds neither a `;` nor a line terminator.
   */
  function CapturedMimeType(head: string): (r: Option<string>)
    ensures r.None? <==> forall q :: 0 <= q < |head| ==> !MatchesAt(head, q)
    ensures r.Some? ==> forall k :: 0 <= k < |r.value| ==> r.value[k] != ';' && !IsLineTerminator(r.value[k])
  {
    match LeftmostMatch(head, 0)
    case None => None
    case Some(p) => Some(head[p + 1 .. LazyGroupEnd(head, p + 1).value])
  }

  /** `capture || 'application/octet-stream'`: the fallback also covers an empty capture. */
  function MimeTypeOf(head: string): (mime: string)
    ensures mime != ""
    ensures CapturedMimeType(head).Some? && CapturedMimeType(head).value != "" ==> mime == CapturedMimeType(head).value
    ensures CapturedMimeType(head).None? || CapturedMimeType(head).value == "" ==> mime == DefaultMimeType
  {
    match CapturedMimeType(head)
    case Some(m) => if m != "" then m else DefaultMimeType
    case None => DefaultMimeType
  }

  /** `p` is the first position at or after `i` that holds `c`. */
  predicate FirstFrom(s: string, c: char, i: nat, p: nat)
  {
    i <= p < |s| && s[p] == c && forall q :: i <= q < p ==> s[q] != c
  }

  /** No position at or after `i` holds `c`. */
  predicate NoneFrom(s: string, c: char, i: nat)
  {
    forall q :: i <= q < |s| ==> s[q] != c
  }

  /** The lazy group starting at `i` ends at `e` when `e` is the first `;` and `.` matches up to it. */
  lemma LazyGroupEndsAt(s: string, i: nat, e: nat)
    requires FirstFrom(s, ';', i, e) && DotMatches(s, i, e)
    ensures LazyGroupEnd(s, i) == Some(e)
  {
  }

  /** With no `:` the pattern cannot match, so the MIME type falls back to the default. */
  lemma NoCaptureWithoutColon(head: string)
    requires NoneFrom(head, ':', 0)
    ensures CapturedMimeType(head) == None
    ensures MimeTypeOf(head) == DefaultMimeType
  {
  }

  /**
   * When the first `:` is at `p`, the first `;` after it is at `e` and no
   * line terminator lies between them, the capture is head[p + 1 .. e].
   */
  lemma CaptureAt(head: string, p: nat, e: nat)
    requires FirstFrom(head, ':', 0, p) && FirstFrom(head, ';', p + 1, e)
    requires forall j :: p < j < e ==> !IsLineTerminator(head[j])
    ensures CapturedMimeType(head) == Some(head[p + 1 .. e])
  {
    LazyGroupEndsAt(head, p + 1, e);
    assert LeftmostMatch(head, 0) == Some(p) by {
      var r := LeftmostMatch(head, 0);
      assert MatchesAt(head, p);
      assert r.Some? && r.value <= p;
      assert head[r.value] == ':';
    }
  }

  /** When no `;` follows the first `:`, the pattern fails and the MIME type falls back. */
  lemma NoCaptureAfter(head: string, p: nat)
    requires FirstFrom(head, ':', 0, p) && NoneFrom(head, ';', p + 1)
    ensures CapturedMimeType(head) == None
    ensures MimeTypeOf(head) == DefaultMimeType
  {
  }

  /**
   * `.` does not match a line terminator: one between the only `:` and the
   * first `;` after it defeats the pattern, so the MIME type falls back.
   */
  lemma LineTerminatorDefeatsCapture(head: string, p: nat, t: nat)
    requires FirstFrom(head, ':', 0, p) && NoneFrom(head, ':', p + 1)
    requires p < t < |head| && IsLineTerminator(head[t])
    requires forall j :: p < j < t ==> head[j] != ';'
    ensures CapturedMimeType(head) == None
    ensures MimeTypeOf(head) == DefaultMimeType
  {
  }

  // ---------------------------------------------------------------------
  // The data URL -> ImageState computation
  // ---------------------------------------------------------------------

  /** The ImageState the upload slot builds from one data URL (components/ImageUploader.tsx:22-31). */
  function ParseDataUrl(dataUrl: string): (image: ImageState)
    ensures image.previewUrl == dataUrl
    ensures image.mimeType != ""
  {
    var parts := Split(dataUrl, ',');
    ImageState(
      base64 := if |parts| > 1 then Some(parts[1]) else None,
      mimeType := MimeTypeOf(parts[0]),
      previewUrl := dataUrl)
  }

  /**
   * The MIME type comes from the text before the first comma, and the
   * payload is the text between the first and the second comma (to the end
   * when there is no second), absent when there is no comma at all.
   */
  lemma {:induction false} FieldsOfDataUrl(dataUrl: string)
    ensures ',' !in dataUrl ==>
      ParseDataUrl(dataUrl) == ImageState(None, MimeTypeOf(dataUrl), dataUrl)
    ensures ',' in dataUrl ==>
      var c := FirstIndex(dataUrl, ',');
      var rest := dataUrl[c + 1..];
      ParseDataUrl(dataUrl).mimeType == MimeTypeOf(dataUrl[..c]) &&
      ParseDataUrl(dataUrl).base64 == Some(if ',' in rest then rest[..FirstIndex(rest, ',')] else rest)
  {
    if ',' in dataUrl {
      var c := FirstIndex(dataUrl, ',');
      var rest := dataUrl[c + 1..];
      var tail := Split(rest, ',');
      assert Split(dataUrl, ',') == [dataUrl[..c]] + tail;
      if ',' in rest {
        assert tail[0] == rest[..FirstIndex(rest, ',')];
      }
    }
  }

  /**
   * Round trip for the base64 form of RFC 2397, section 3:
   * "data:" + m + ";base64," + p parses back to m and p.
   */
  lemma DataUrlRoundTrip(m: string, p: string)
    requires m != ""
    requires NoneFrom(m, ';', 0) && NoneFrom(m, ',', 0)
    requires forall k :: 0 <= k < |m| ==> !IsLineTerminator(m[k])
    requires NoneFrom(p, ',', 0)
    ensures ParseDataUrl("data:" + m + ";base64," + p)
         == ImageState(Some(p), m, "data:" + m + ";base64," + p)
  {
    var head := "data:" + m + ";base64";
    assert "data:" + m + ";base64," + p == Join([head, p], ',');
    assert NoneFrom(head, ',', 0) by {
      forall q | 0 <= q < |head| ensures head[q] != ',' {
        if 5 <= q < 5 + |m| {
          assert head[q] == m[q - 5];
        }
      }
    }
    SplitJoin([head, p], ',');
    var e := 5 + |m|;
    forall j | 5 <= j < e ensures head[j] == m[j - 5] {
    }
    assert FirstFrom(head, ':', 0, 4);
    assert FirstFrom(head, ';', 5, e);
    CaptureAt(head, 4, e);
    assert head[5 .. e] == m;
  }

  // ---------------------------------------------------------------------
  // handleFileChange
  // ---------------------------------------------------------------------

  /**
   * The file-change handler. `dataUrl` is what the file reader produces for
   * the selected file, None when no file was selected. The result lists the
   * values handed to the `onImageUpload` callback, in order.
   */
  method HandleFileChange(dataUrl: Option<string>) returns (uploads: seq<ImageState>)
    ensures dataUrl.None? ==> uploads == []
    ensures dataUrl.Some? ==> |uploads| == 1 && uploads[0] == ParseDataUrl(dataUrl.value)
  {
    uploads := [];
    if dataUrl.Some? {
      var image := ParseDataUrl(dataUrl.value);
      uploads := uploads + [image];
    }
  }
}
