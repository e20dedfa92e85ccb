/**
 * Image descriptors as the backend returns them: either a bare URL string or an object
 * carrying `url`, `thumbnail_url`, `b64_json` and `description`, any of which may be missing.
 */
module Images {
  import opened Wrappers

  datatype ImageRecord = ImageRecord(
    url: Option<string>,
    thumbnailUrl: Option<string>,
    b64Json: Option<string>,
    description: Option<string>)

  /** A browser `File` as far as the frontend inspects it. */
  datatype File = File(name: string, mimeType: string, size: nat)

  /** An element of a task's `generated_images` list. */
  datatype ImageData = Text(s: string) | Record(r: ImageRecord) | Null

  /** JavaScript truthiness of a possibly missing string: present and non-empty. */
  predicate Truthy(o: Option<string>) {
    o.Some? && o.value != ""
  }

  const PngPrefix: string := "data:image/png;base64,"

  /**
   * The URL a history card shows for an image: a string as is, else the first truthy of
   * `url`, `thumbnail_url`, and `b64_json` wrapped as a PNG data URI; `""` when none.
   */
  function DisplayUrl(d: ImageData): (u: string)
    ensures d.Text? ==> u == d.s
    ensures d.Record? && Truthy(d.r.url) ==> u == d.r.url.value
    ensures d.Record? && !Truthy(d.r.url) && Truthy(d.r.thumbnailUrl) ==> u == d.r.thumbnailUrl.value
    ensures d.Record? && !Truthy(d.r.url) && !Truthy(d.r.thumbnailUrl) && Truthy(d.r.b64Json) ==>
      u == PngPrefix + d.r.b64Json.value
    ensures u == "" <==>
      (d.Text? && d.s == "") || d.Null? ||
      (d.Record? && !Truthy(d.r.url) && !Truthy(d.r.thumbnailUrl) && !Truthy(d.r.b64Json))
  {
    match d
    case Text(s) => s
    case Null => ""
    case Record(r) =>
      if Truthy(r.url) then r.url.value
      else if Truthy(r.thumbnailUrl) then r.thumbnailUrl.value
      else if Truthy(r.b64Json) then PngPrefix + r.b64Json.value
      else ""
  }
}
