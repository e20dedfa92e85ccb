/**
 * Pure helpers of the frontend: image-file validation, text truncation, image-URL
 * resolution and temporary ids.
 */
module Helpers {
  import opened Wrappers
  import opened Strings
  import opened Images

  /** The upload size ceiling, 10 MiB. */
  const MaxImageBytes: nat := 10 * 1024 * 1024

  const ValidImageTypes: seq<string> := ["image/png", "image/jpeg", "image/jpg", "image/webp"]

  const FormatMessage: string := "请上传 PNG、JPG 或 WebP 格式的图片"
  const SizeMessage: string := "图片大小不能超过 10MB"

  datatype Validation = Accepted | Rejected(message: string)

  /**
   * `validateImageFile`: the type is checked before the size, and the size comparison is
   * strict, so a file of exactly 10 MiB passes.
   */
  function ValidateImageFile(f: File): (v: Validation)
    ensures v.Accepted? <==> f.mimeType in ValidImageTypes && f.size <= MaxImageBytes
    ensures f.mimeType !in ValidImageTypes ==> v == Rejected(FormatMessage)
    ensures f.mimeType in ValidImageTypes && f.size > MaxImageBytes ==> v == Rejected(SizeMessage)
  {
    if f.mimeType !in ValidImageTypes then Rejected(FormatMessage)
    else if f.size > MaxImageBytes then Rejected(SizeMessage)
    else Accepted
  }

  /** Example: an oversized file of the wrong type is reported for its type, not its size. */
  lemma WrongTypeReportedFirst(name: string, size: nat)
    requires size > MaxImageBytes
    ensures ValidateImageFile(File(name, "image/gif", size)) == Rejected(FormatMessage)
  {
    assert "image/gif" != ValidImageTypes[0] && "image/gif" != ValidImageTypes[1];
    assert "image/gif" != ValidImageTypes[2] && "image/gif" != ValidImageTypes[3];
  }

  /** Example at the boundary: exactly 10 MiB of PNG is accepted; one byte more is not. */
  lemma SizeBoundary(name: string)
    ensures ValidateImageFile(File(name, "image/png", MaxImageBytes)).Accepted?
    ensures ValidateImageFile(File(name, "image/png", MaxImageBytes + 1)) == Rejected(SizeMessage)
  {
    assert "image/png" == ValidImageTypes[0];
  }

  /**
   * `truncateText(text, maxLength, suffix)`: an empty text or one that fits is returned as
   * is; otherwise the first `maxLength` code units (none when `maxLength` is negative, as
   * `substring` clamps) followed by the suffix. Lengths count UTF-16 code units, as
   * `length` and `substring` do.
   */
  function TruncateText(text: string, maxLength: int, suffix: string): (r: string)
    ensures text == [] || Utf16Length(text) <= maxLength ==> r == text
    ensures text != [] && Utf16Length(text) > maxLength ==>
      var kept := if maxLength < 0 then 0 else maxLength;
      |suffix| <= |r| && r[|r| - |suffix|..] == suffix &&
      var p := r[..|r| - |suffix|];
      && |p| < |text| && p == text[..|p|]
      && Utf16Length(p) <= kept
      && (Utf16Length(p) < kept ==> Utf16Length(p) + 1 == kept && Utf16Units(text[|p|]) == 2)
    ensures maxLength >= 0 ==> Utf16Length(r) <= maxLength + Utf16Length(suffix)
  {
    if text == [] || Utf16Length(text) <= maxLength then text
    else
      var p := Utf16Prefix(text, if maxLength < 0 then 0 else maxLength);
      Utf16LengthAppend(p, suffix);
      assert p != text;
      assert (p + suffix)[..|p|] == p && (p + suffix)[|p|..] == suffix;
      p + suffix
  }

  const DataImagePrefix: string := "data:image"

  /**
   * `parseImageUrl(url)` with `window.location.origin` passed in: a missing or empty URL
   * gives `""`, a `data:image` URI and an absolute URL are returned unchanged, and a path
   * starting with `/` is prefixed with the origin.
   */
  function ParseImageUrl(url: Option<string>, origin: string): (r: string)
    ensures r == "" <==> !Truthy(url)
    ensures Truthy(url) && StartsWith(url.value, DataImagePrefix) ==> r == url.value
    ensures Truthy(url) && !StartsWith(url.value, DataImagePrefix) && StartsWith(url.value, "/") ==>
      r == origin + url.value
    ensures Truthy(url) && !StartsWith(url.value, "/") ==> r == url.value
  {
    if !Truthy(url) then ""
    else if StartsWith(url.value, DataImagePrefix) then url.value
    else if StartsWith(url.value, "/") then origin + url.value
    else url.value
  }

  /** Resolving an already resolved URL changes nothing, for any origin not itself a path. */
  lemma ParseImageUrlIdempotent(url: Option<string>, origin: string)
    requires origin == [] || origin[0] != '/'
    ensures ParseImageUrl(Some(ParseImageUrl(url, origin)), origin) == ParseImageUrl(url, origin)
  {
    var r := ParseImageUrl(url, origin);
    if Truthy(url) && !StartsWith(url.value, DataImagePrefix) && StartsWith(url.value, "/") && origin != [] {
      assert r[0] == origin[0];
      assert !StartsWith(r, "/");
    }
  }

  /** `generateId()` with the clock passed in: `temp_` followed by the timestamp. */
  function GenerateId(now: nat): (id: string)
    ensures StartsWith(id, "temp_") && |id| > 5
  {
    "temp_" + NatToString(now)
  }

  /** Two ids coincide exactly when they were made at the same millisecond. */
  lemma GenerateIdUnique(a: nat, b: nat)
    ensures GenerateId(a) == GenerateId(b) <==> a == b
  {
    if GenerateId(a) == GenerateId(b) {
      PrefixedNumberInjective("temp_", a, b);
    }
  }
}
