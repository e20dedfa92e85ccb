/**
 * The full-size image viewer (`ImageViewer.js`): its open/closed state, the loading
 * overlay, and `openWithOriginal`, which opens on the thumbnail and swaps in the original
 * once the task's full images arrive, falling back to the thumbnail on any failure.
 */
module ImageViewer {
  import opened Wrappers
  import opened Images
  import opened Helpers

  /**
   * The original's URL: a string as is, else the record's `url`, else its `b64_json` as a
   * PNG data URI; `thumbnail_url` is not consulted.
   */
  function FullUrl(d: ImageData): (u: string)
    ensures d.Text? ==> u == d.s
    ensures d.Record? && Truthy(d.r.url) ==> u == d.r.url.value
    ensures d.Record? && !Truthy(d.r.url) && Truthy(d.r.b64Json) ==> u == PngPrefix + d.r.b64Json.value
    ensures u == "" <==> (d.Text? && d.s == "") || d.Null? || (d.Record? && !Truthy(d.r.url) && !Truthy(d.r.b64Json))
  {
    match d
    case Text(s) => s
    case Null => ""
    case Record(r) =>
      if Truthy(r.url) then r.url.value
      else if Truthy(r.b64Json) then PngPrefix + r.b64Json.value
      else ""
  }

  /** The thumbnail never influences the original's URL. */
  lemma FullUrlIgnoresThumbnail(r: ImageRecord, thumbnail: Option<string>)
    ensures FullUrl(Record(r)) == FullUrl(Record(r.(thumbnailUrl := thumbnail)))
  {
  }

  /**
   * The viewer and the history cards agree on every image except a record whose only
   * source is its thumbnail, which the cards show and the viewer does not.
   */
  lemma FullUrlAgreesWithDisplayUrl(d: ImageData)
    ensures !(d.Record? && !Truthy(d.r.url) && Truthy(d.r.thumbnailUrl)) ==> FullUrl(d) == DisplayUrl(d)
    ensures d.Record? && !Truthy(d.r.url) && Truthy(d.r.thumbnailUrl) ==> DisplayUrl(d) == d.r.thumbnailUrl.value
  {
  }

  /** What `loadFullImages` gave: it threw, a result without `task.generated_images`, a non-array, or a list. */
  datatype FullImages = Threw | Malformed | NotAnArray | Images(items: seq<ImageData>)

  /** JavaScript truthiness of a list element (`undefined` past the end). */
  predicate TruthyAt(items: seq<ImageData>, index: nat) {
    index < |items| && match items[index] { case Text(s) => s != "" case Record(_) => true case Null => false }
  }

  /** The URL `openWithOriginal` finally shows: the original when it can be found, else the thumbnail. */
  function ShownUrl(fetched: FullImages, index: nat, thumbnail: string): (u: string)
    ensures fetched.Images? && TruthyAt(fetched.items, index) && FullUrl(fetched.items[index]) != "" ==>
      u == FullUrl(fetched.items[index])
    ensures !(fetched.Images? && TruthyAt(fetched.items, index)) ==> u == thumbnail
    ensures u == thumbnail || (fetched.Images? && index < |fetched.items| && u == FullUrl(fetched.items[index]))
  {
    if fetched.Images? && TruthyAt(fetched.items, index) && FullUrl(fetched.items[index]) != "" then
      FullUrl(fetched.items[index])
    else thumbnail
  }

  /** The viewer's elements as far as their styles and source matter. */
  class Viewer {
    /** Which elements the page has: the overlay, its image and its loader. */
    const hasViewer: bool
    const hasImage: bool
    const hasLoader: bool

    var display: string
    var imageSrc: string
    var opacity: string
    var loaderDisplay: string
    var bodyOverflow: string

    constructor(hasViewer: bool, hasImage: bool, hasLoader: bool)
      ensures this.hasViewer == hasViewer && this.hasImage == hasImage && this.hasLoader == hasLoader
      ensures !IsOpen()
    {
      this.hasViewer, this.hasImage, this.hasLoader := hasViewer, hasImage, hasLoader;
      display, imageSrc, opacity, loaderDisplay, bodyOverflow := "none", "", "1", "none", "";
    }

    /** `isOpen`: the overlay exists and is displayed as flex. */
    predicate IsOpen()
      reads this
    {
      hasViewer && display == "flex"
    }

    /**
     * `open(src, {isLoading})`: with both elements present it shows the source, opens the
     * overlay and locks scrolling; loading means half opacity and a visible loader.
     */
    method Open(src: string, isLoading: bool, origin: string)
      modifies this
      ensures !(hasViewer && hasImage) ==>
        && display == old(display) && imageSrc == old(imageSrc) && opacity == old(opacity)
        && loaderDisplay == old(loaderDisplay) && bodyOverflow == old(bodyOverflow)
      ensures hasViewer && hasImage ==>
        && IsOpen() && imageSrc == ParseImageUrl(Some(src), origin) && bodyOverflow == "hidden"
        && opacity == (if isLoading then "0.5" else "1")
        && loaderDisplay == (if hasLoader then (if isLoading then "flex" else "none") else old(loaderDisplay))
    {
      if !hasViewer || !hasImage {
        return;
      }
      imageSrc := ParseImageUrl(Some(src), origin);
      display := "flex";
      if hasLoader {
        loaderDisplay := if isLoading then "flex" else "none";
      }
      opacity := if isLoading then "0.5" else "1";
      bodyOverflow := "hidden";
    }

    /** `updateImage`: the new source at full opacity, the loader hidden; the open state is untouched. */
    method UpdateImage(src: string, origin: string)
      modifies this
      ensures display == old(display) && bodyOverflow == old(bodyOverflow)
      ensures hasImage ==>
        && imageSrc == ParseImageUrl(Some(src), origin) && opacity == "1"
        && loaderDisplay == (if hasLoader then "none" else old(loaderDisplay))
      ensures !hasImage ==> imageSrc == old(imageSrc) && opacity == old(opacity) && loaderDisplay == old(loaderDisplay)
    {
      if !hasImage {
        return;
      }
      imageSrc := ParseImageUrl(Some(src), origin);
      opacity := "1";
      if hasLoader {
        loaderDisplay := "none";
      }
    }

    /** `close`: the overlay is hidden and scrolling restored. */
    method Close()
      modifies this
      ensures hasViewer ==> !IsOpen() && display == "none" && bodyOverflow == ""
      ensures !hasViewer ==> display == old(display) && bodyOverflow == old(bodyOverflow)
      ensures imageSrc == old(imageSrc) && opacity == old(opacity) && loaderDisplay == old(loaderDisplay)
    {
      if !hasViewer {
        return;
      }
      display := "none";
      bodyOverflow := "";
    }

    /**
     * `openWithOriginal` with the fetch's outcome passed in: the viewer opens loading on the
     * thumbnail, then settles on the original or, failing that, the thumbnail, at full opacity.
     */
    method OpenWithOriginal(thumbnail: string, fetched: FullImages, index: nat, origin: string)
      modifies this
      ensures hasViewer && hasImage ==> IsOpen() && display == "flex" && bodyOverflow == "hidden"
      ensures !(hasViewer && hasImage) ==> display == old(display) && bodyOverflow == old(bodyOverflow)
      ensures hasImage ==> imageSrc == ParseImageUrl(Some(ShownUrl(fetched, index, thumbnail)), origin) && opacity == "1"
      ensures !hasImage ==> imageSrc == old(imageSrc) && opacity == old(opacity)
      ensures loaderDisplay == (if hasImage && hasLoader then "none" else old(loaderDisplay))
    {
      Open(thumbnail, true, origin);
      UpdateImage(ShownUrl(fetched, index, thumbnail), origin);
    }
  }
}
