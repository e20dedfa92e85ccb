/**
 * The generator panel of the original frontend (`GeneratorUI.js`): reading the form into
 * generation parameters, the prompt guard of `handleGenerate`, the task card with its
 * placeholders, progressive rendering of streamed images, and the card's delete action.
 */
module GeneratorUI {
  import opened Wrappers
  import opened Strings
  import opened Images
  import opened Helpers
  import Legacy
  import ImageService

  /** The form as `getGenerationParams` reads it. */
  datatype Form = Form(
    promptValue: string,
    /** The text of the active count button, if one is active. */
    countButton: Option<string>,
    /** The active ratio button, if any, with its `data-ratio` attribute. */
    ratioButton: Option<Option<string>>,
    seriesToggle: bool,
    uploadedFiles: seq<File>)

  datatype GenerationParams = GenerationParams(
    prompt: string,
    count: JsInt,
    aspectRatio: Option<string>,
    seriesMode: bool,
    mode: string,
    uploadedFiles: seq<File>)

  /**
   * `getGenerationParams`: the trimmed prompt, `parseInt` of the active count button (1
   * without one), the active ratio (`1:1` without one), and the mode: uploads make it
   * conversation or image-to-image by the series toggle, no uploads conversation or
   * text-to-image.
   */
  function GetGenerationParams(f: Form): (p: GenerationParams)
    ensures p.prompt == Trim(f.promptValue)
    ensures f.countButton.None? ==> p.count == Num(1)
    ensures f.countButton.Some? ==> p.count == ParseInt(f.countButton.value)
    ensures f.ratioButton.None? ==> p.aspectRatio == Some("1:1")
    ensures f.ratioButton.Some? ==> p.aspectRatio == f.ratioButton.value
    ensures p.seriesMode == f.seriesToggle && p.uploadedFiles == f.uploadedFiles
    ensures |f.uploadedFiles| > 0 ==> p.mode == (if f.seriesToggle then "conversation" else "image-to-image")
    ensures |f.uploadedFiles| == 0 ==> p.mode == (if f.seriesToggle then "conversation" else "text-to-image")
  {
    var mode :=
      if |f.uploadedFiles| > 0 then (if f.seriesToggle then "conversation" else "image-to-image")
      else if f.seriesToggle then "conversation"
      else "text-to-image";
    GenerationParams(
      Trim(f.promptValue),
      if f.countButton.Some? then ParseInt(f.countButton.value) else Num(1),
      if f.ratioButton.Some? then f.ratioButton.value else Some("1:1"),
      f.seriesToggle,
      mode,
      f.uploadedFiles)
  }

  /**
   * The panel's mode is the one the page script's prompt optimiser reports for the same
   * uploads and toggle, and it names the orchestrator's branch (`conversation` for a series).
   */
  lemma ParamsModeAgrees(f: Form)
    ensures GetGenerationParams(f).mode == Legacy.OptimizeMode(|f.uploadedFiles|, f.seriesToggle)
    ensures GetGenerationParams(f).mode == "text-to-image" <==>
      ImageService.DetectMode(|f.uploadedFiles|, f.seriesToggle) == ImageService.TextToImage
    ensures GetGenerationParams(f).mode == "image-to-image" <==>
      ImageService.DetectMode(|f.uploadedFiles|, f.seriesToggle) == ImageService.ImageToImage
  {
    Legacy.OptimizeModeAgreesWithDetectMode(|f.uploadedFiles|, f.seriesToggle);
  }

  /** A count button showing a decimal number yields that number. */
  lemma CountButtonReadBack(f: Form, n: nat)
    requires f.countButton == Some(NatToString(n))
    ensures GetGenerationParams(f).count == Num(n)
  {
    ParseIntOfNatToString(n);
  }

  // ---------------------------------------------------------------- the task card

  /** An element of a card's grid: a loading placeholder or a rendered image. */
  datatype GridItem =
    | Placeholder(aspect: Option<string>)
    | Picture(element: ImageElement)

  /** What `createImageElement` builds: the image source, its alt text and the URL its actions use. */
  datatype ImageElement = ImageElement(src: string, alt: string, aspect: Option<string>, url: string)

  /** The dataset a freshly created card carries. */
  datatype CardData = CardData(originalPrompt: string, aspectRatio: Option<string>, count: JsInt, seriesMode: bool, header: string)

  /** The grid element of a task card, rewritten in place as progress arrives. */
  class Grid {
    var items: seq<GridItem>

    constructor()
      ensures items == []
    {
      items := [];
    }
  }

  /** How many times `for (let i = 0; i < count; i++)` runs: never for `NaN` or a non-positive count. */
  function LoopCount(count: JsInt): (n: nat)
    ensures count.Num? && count.value >= 0 ==> n == count.value
    ensures count.NaN? || count.value <= 0 ==> n == 0
  {
    if count.Num? && count.value > 0 then count.value else 0
  }

  /**
   * `createTaskCard`: the dataset copied from the parameters, a header with the prompt cut
   * to 40 characters, and a grid holding exactly `count` placeholders in the card's ratio.
   */
  method CreateTaskCard(p: GenerationParams) returns (card: CardData, grid: Grid)
    ensures fresh(grid)
    ensures card == CardData(p.prompt, p.aspectRatio, p.count, p.seriesMode, TruncateText(p.prompt, 40, "..."))
    ensures |grid.items| == LoopCount(p.count)
    ensures forall i :: 0 <= i < |grid.items| ==> grid.items[i] == Placeholder(p.aspectRatio)
  {
    card := CardData(p.prompt, p.aspectRatio, p.count, p.seriesMode, TruncateText(p.prompt, 40, "..."));
    grid := new Grid();
    var n := LoopCount(p.count);
    var i := 0;
    while i < n
      invariant 0 <= i <= n
      invariant |grid.items| == i
      invariant forall j :: 0 <= j < i ==> grid.items[j] == Placeholder(p.aspectRatio)
    {
      grid.items := grid.items + [Placeholder(p.aspectRatio)];
      i := i + 1;
    }
  }

  /** What `handleGenerate` does first: warn about an empty prompt, or put up a card. */
  datatype Start = WarnEmptyPrompt | Started(params: GenerationParams)

  /** The guard of `handleGenerate`: no card and no request for an empty trimmed prompt. */
  function HandleGenerateStart(f: Form): (s: Start)
    ensures s.WarnEmptyPrompt? <==> GetGenerationParams(f).prompt == ""
    ensures s.Started? ==> s.params == GetGenerationParams(f)
  {
    var p := GetGenerationParams(f);
    if p.prompt == "" then WarnEmptyPrompt else Started(p)
  }

  /** A prompt of nothing but whitespace is refused; any other prompt starts a generation. */
  lemma BlankPromptRefused(f: Form)
    ensures HandleGenerateStart(f).WarnEmptyPrompt? <==>
      forall i :: 0 <= i < |f.promptValue| ==> IsJsWhitespace(f.promptValue[i])
  {
    TrimEmptyIffBlank(f.promptValue);
  }

  /** The generation result as the app hands it back. */
  datatype AppResult = AppResult(success: bool, message: Option<string>, userMessage: Option<string>)

  /** How the `handleGenerate` call ended: it returned a result, or it threw an error with its `message`. */
  datatype GenerateCall = Returned(result: AppResult) | CallThrew(errorMessage: Option<string>)

  /** What the card shows once the generation call returns or throws; an error also raises a toast. */
  datatype Outcome = Done | TimeoutPanel(note: string) | ErrorPanel(message: string, toast: string)

  /**
   * The result handling of `handleGenerate`: `TIMEOUT_504` shows the background-processing
   * panel; any other failure is rethrown as an error carrying the message (`生成失败` when
   * there is none), and the catch shows the error's message, or a default when it is empty,
   * on the panel and in the toast.
   */
  function GenerateOutcome(call: GenerateCall): (o: Outcome)
    ensures o.Done? <==> call.Returned? && call.result.success
    ensures o.TimeoutPanel? <==> call.Returned? && !call.result.success && call.result.message == Some("TIMEOUT_504")
    ensures o.TimeoutPanel? ==> o.note == (if Truthy(call.result.userMessage) then call.result.userMessage.value else "请稍后刷新页面查看历史记录")
    ensures call.Returned? && o.ErrorPanel? ==>
      o.message == o.toast == (if Truthy(call.result.message) then call.result.message.value else "生成失败")
    ensures call.CallThrew? ==> o.ErrorPanel?
    ensures call.CallThrew? && Truthy(call.errorMessage) ==> o.message == o.toast == call.errorMessage.value
    ensures call.CallThrew? && !Truthy(call.errorMessage) ==> o.message == "生成失败，请重试" && o.toast == "生成失败"
  {
    match call
    case CallThrew(m) => ShownError(m)
    case Returned(r) =>
      if r.success then Done
      else if r.message == Some("TIMEOUT_504") then
        TimeoutPanel(if Truthy(r.userMessage) then r.userMessage.value else "请稍后刷新页面查看历史记录")
      else ShownError(Some(if Truthy(r.message) then r.message.value else "生成失败"))
  }

  /** The catch block: `error.message || …` on the panel and in the toast. */
  function ShownError(errorMessage: Option<string>): Outcome {
    if Truthy(errorMessage) then ErrorPanel(errorMessage.value, errorMessage.value)
    else ErrorPanel("生成失败，请重试", "生成失败")
  }

  // ---------------------------------------------------------------- progress

  datatype Progress = Progress(status: string, images: Option<seq<ImageData>>)

  /** Whether `onProgress` redraws: processing or completed, with at least one image. */
  predicate Redraws(p: Progress) {
    (p.status == "processing" || p.status == "completed") && p.images.Some? && |p.images.value| > 0
  }

  /**
   * `createImageElement`: the URL is the string itself, else the record's `url`, else its
   * `thumbnail_url`, else its `b64_json` as a PNG data URI; the `img` source is that URL
   * after `parseImageUrl`, and the alt text numbers the image from 1.
   */
  function CreateImageElement(d: ImageData, index: nat, aspect: Option<string>, origin: string): (e: ImageElement)
    ensures d.Text? ==> e.url == d.s
    ensures d.Record? && Truthy(d.r.url) ==> e.url == d.r.url.value
    ensures d.Record? && !Truthy(d.r.url) && Truthy(d.r.thumbnailUrl) ==> e.url == d.r.thumbnailUrl.value
    ensures d.Record? && !Truthy(d.r.url) && !Truthy(d.r.thumbnailUrl) && Truthy(d.r.b64Json) ==>
      e.url == PngPrefix + d.r.b64Json.value
    ensures e.src == ParseImageUrl(Some(e.url), origin)
    ensures e.alt == "生成的图片 " + NatToString(index + 1) && e.aspect == aspect
  {
    var url := DisplayUrl(d);
    ImageElement(ParseImageUrl(Some(url), origin), "生成的图片 " + NatToString(index + 1), aspect, url)
  }

  /**
   * `onProgress`: a redrawing update replaces the grid with one element per streamed image,
   * in order; any other update leaves the grid as it is.
   */
  method OnProgress(p: Progress, grid: Grid, aspect: Option<string>, origin: string)
    modifies grid
    ensures !Redraws(p) ==> grid.items == old(grid.items)
    ensures Redraws(p) ==> |grid.items| == |p.images.value|
    ensures Redraws(p) ==> forall i :: 0 <= i < |grid.items| ==>
      grid.items[i] == Picture(CreateImageElement(p.images.value[i], i, aspect, origin))
  {
    if !Redraws(p) {
      return;
    }
    var images := p.images.value;
    grid.items := [];
    var index := 0;
    while index < |images|
      invariant 0 <= index <= |images|
      invariant |grid.items| == index
      invariant forall i :: 0 <= i < index ==> grid.items[i] == Picture(CreateImageElement(images[i], i, aspect, origin))
    {
      grid.items := grid.items + [Picture(CreateImageElement(images[index], index, aspect, origin))];
      index := index + 1;
    }
  }

  // ---------------------------------------------------------------- delete

  /** The effect of the delete menu item. */
  datatype Deletion = Deletion(backendCalled: bool, removed: bool)

  /**
   * The delete action: nothing without confirmation; a card with a task id asks the backend
   * first and goes only if that succeeded; a card without one goes at once.
   */
  function DeleteCard(confirmed: bool, taskId: Option<string>, backendOk: bool): (d: Deletion)
    ensures d.backendCalled <==> confirmed && Truthy(taskId)
    ensures d.removed <==> confirmed && (!Truthy(taskId) || backendOk)
    ensures !confirmed ==> d == Deletion(false, false)
  {
    if !confirmed then Deletion(false, false)
    else if Truthy(taskId) then Deletion(true, backendOk)
    else Deletion(false, true)
  }
}
