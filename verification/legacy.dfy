/**
 * The page script of the v2 frontend (`legacy.js`): the decision rules it applies inline
 * (prompt-optimiser mode, textarea height, regenerate guard and cost, progress
 * placeholders, the final toast) and the closure state of its reference-image panel
 * (`uploadedImages`, `slotImageMap`, `uploadRows` and the two id counters).
 */
module Legacy {
  import opened Wrappers
  import opened Strings
  import opened Images
  import opened Helpers
  import opened OrderedMap
  import opened Uploads
  import ImageService
  import HistoryRenderer

  // ---------------------------------------------------------------- inline rules

  /** The mode `handleOptimizePrompt` reports: series wins, then the presence of uploads. */
  function OptimizeMode(uploadCount: nat, seriesMode: bool): (mode: string)
    ensures seriesMode ==> mode == "conversation"
    ensures !seriesMode && uploadCount > 0 ==> mode == "image-to-image"
    ensures !seriesMode && uploadCount == 0 ==> mode == "text-to-image"
  {
    if uploadCount > 0 then (if seriesMode then "conversation" else "image-to-image")
    else if seriesMode then "conversation"
    else "text-to-image"
  }

  /** The optimiser's mode is the orchestrator's `detectMode`, with `conversation` for a series. */
  lemma OptimizeModeAgreesWithDetectMode(uploadCount: nat, seriesMode: bool)
    ensures OptimizeMode(uploadCount, seriesMode) == "conversation" <==>
      ImageService.DetectMode(uploadCount, seriesMode) == ImageService.Series
    ensures OptimizeMode(uploadCount, seriesMode) == "image-to-image" <==>
      ImageService.DetectMode(uploadCount, seriesMode) == ImageService.ImageToImage
    ensures OptimizeMode(uploadCount, seriesMode) == "text-to-image" <==>
      ImageService.DetectMode(uploadCount, seriesMode) == ImageService.TextToImage
  {
  }

  const MinTextareaHeight: int := 64

  /** The height ceiling: the window height less 250 px with the sidebar collapsed, else 208 px. */
  function MaxTextareaHeight(collapsed: bool, innerHeight: int): int {
    if collapsed then innerHeight - 250 else 208
  }

  /** `adjustTextareaHeight`: `max(64, min(scrollHeight, maxHeight))`. */
  function TextareaHeight(scrollHeight: int, collapsed: bool, innerHeight: int): (h: int)
    ensures h >= MinTextareaHeight
    ensures MaxTextareaHeight(collapsed, innerHeight) >= MinTextareaHeight ==> h <= MaxTextareaHeight(collapsed, innerHeight)
    ensures MinTextareaHeight <= scrollHeight <= MaxTextareaHeight(collapsed, innerHeight) ==> h == scrollHeight
    ensures scrollHeight <= MinTextareaHeight ==> h == MinTextareaHeight
  {
    var maxHeight := MaxTextareaHeight(collapsed, innerHeight);
    var capped := if scrollHeight < maxHeight then scrollHeight else maxHeight;
    if capped > MinTextareaHeight then capped else MinTextareaHeight
  }

  /** The textarea gets `is-expanded` exactly when it is taller than one line. */
  predicate IsExpanded(h: int) {
    h > MinTextareaHeight
  }

  /** The textarea is marked expanded exactly when its content and its ceiling both exceed one line. */
  lemma ExpandedIffTaller(scrollHeight: int, collapsed: bool, innerHeight: int)
    ensures IsExpanded(TextareaHeight(scrollHeight, collapsed, innerHeight)) <==>
      scrollHeight > MinTextareaHeight && MaxTextareaHeight(collapsed, innerHeight) > MinTextareaHeight
  {
  }

  /** More content never makes the textarea shorter. */
  lemma TextareaHeightMonotone(s1: int, s2: int, collapsed: bool, innerHeight: int)
    requires s1 <= s2
    ensures TextareaHeight(s1, collapsed, innerHeight) <= TextareaHeight(s2, collapsed, innerHeight)
  {
  }

  /** Placeholders drawn after the streamed images: `total - images.length`, none when negative. */
  function RemainingPlaceholders(total: int, shown: nat): (n: nat)
    ensures shown + n == (if total > shown then total else shown)
  {
    if total > shown then total - shown else 0
  }

  datatype Toast = Warning(success: int, failed: int) | Success(success: int)

  /**
   * The toast after a successful generation: `success_count || images.length` and
   * `failed_count || 0`, with a warning exactly when the failed count is positive.
   */
  function FinalToast(successCount: Option<int>, failedCount: Option<int>, imageCount: nat): (t: Toast)
    ensures t.Warning? <==> failedCount.Some? && failedCount.value > 0
    ensures t.success == (if successCount.Some? && successCount.value != 0 then successCount.value else imageCount)
    ensures t.Warning? ==> t.failed == failedCount.value
  {
    var success := if successCount.Some? && successCount.value != 0 then successCount.value else imageCount;
    var failed := if failedCount.Some? && failedCount.value != 0 then failedCount.value else 0;
    if failed > 0 then Warning(success, failed) else Success(success)
  }

  // ---------------------------------------------------------------- regenerate

  /** The dataset a task card carries, as strings (absent attributes are `None`). */
  datatype CardDataset = CardDataset(
    originalPrompt: Option<string>,
    aspectRatio: Option<string>,
    count: Option<string>,
    seriesMode: Option<string>,
    hasReferenceImages: Option<string>,
    taskId: Option<string>)

  /** The dataset a history card holds once rendered (numbers become their decimal strings). */
  function DatasetOf(c: HistoryRenderer.Card): CardDataset {
    CardDataset(Some(c.originalPrompt), Some(c.aspectRatio), Some(NatToString(c.count)),
      Some(c.seriesMode), Some(c.hasReferenceImages), Some(c.taskId))
  }

  datatype User = User(particles: int)

  datatype RegenerateCheck =
    | NotLoggedIn
    | MissingPrompt
    | InsufficientBalance(balance: int, required: int)
    | Proceed(prompt: string, aspectRatio: string, count: int, seriesMode: bool, hasReferenceImages: bool, required: int)

  /** `parseInt(dataset.count) || 1` */
  function CountOf(d: CardDataset): int {
    var parsed := if d.count.Some? then ParseInt(d.count.value) else NaN;
    if parsed.Num? && parsed.value != 0 then parsed.value else 1
  }

  /** Series costs 2 particles, otherwise one per image. */
  function RequiredParticles(seriesMode: bool, count: int): int {
    if seriesMode then 2 else count
  }

  /**
   * The regenerate action's checks, in order: the app must be logged in, the card must
   * carry a prompt, and the user must exist with at least the required particles.
   */
  function CheckRegenerate(loggedIn: bool, d: CardDataset, user: Option<User>): (r: RegenerateCheck)
    ensures r.Proceed? <==> (loggedIn && Truthy(d.originalPrompt) && user.Some? &&
      user.value.particles >= RequiredParticles(d.seriesMode == Some("true"), CountOf(d)))
    ensures !loggedIn ==> r == NotLoggedIn
    ensures loggedIn && !Truthy(d.originalPrompt) ==> r == MissingPrompt
    ensures r.InsufficientBalance? ==> r.balance == (if user.Some? && user.value.particles != 0 then user.value.particles else 0)
    ensures r.Proceed? ==> r.required == RequiredParticles(r.seriesMode, r.count) && r.count == CountOf(d)
  {
    if !loggedIn then NotLoggedIn
    else if !Truthy(d.originalPrompt) then MissingPrompt
    else
      var seriesMode := d.seriesMode == Some("true");
      var count := CountOf(d);
      var required := RequiredParticles(seriesMode, count);
      if user.None? || user.value.particles < required then
        InsufficientBalance(if user.Some? && user.value.particles != 0 then user.value.particles else 0, required)
      else
        Proceed(d.originalPrompt.value, if Truthy(d.aspectRatio) then d.aspectRatio.value else "1:1",
          count, seriesMode, d.hasReferenceImages == Some("true"), required)
  }

  /**
   * Regenerating a history card reads back what the card was rendered with: the task's
   * image count, series exactly for a conversation, and the matching particle cost.
   */
  lemma RegenerateReadsCardBack(task: HistoryRenderer.TaskSummary, user: User)
    requires Truthy(task.prompt)
    requires user.particles >= 4 + (if task.imageCount.Some? then task.imageCount.value else 0)
    ensures var r := CheckRegenerate(true, DatasetOf(HistoryRenderer.CreateTaskCard(task)), Some(user));
      && r.Proceed?
      && r.count == HistoryRenderer.ImageCountOf(task)
      && (r.seriesMode <==> task.mode == "conversation")
      && (r.hasReferenceImages <==> task.mode == "image-to-image" || task.mode == "conversation")
      && r.required == (if task.mode == "conversation" then 2 else HistoryRenderer.ImageCountOf(task))
  {
    var card := HistoryRenderer.CreateTaskCard(task);
    var d := DatasetOf(card);
    assert CountOf(d) == card.count == HistoryRenderer.ImageCountOf(task) by {
      ParseIntOfNatToString(card.count);
    }
    var seriesMode := d.seriesMode == Some("true");
    assert seriesMode <==> task.mode == "conversation";
    assert RequiredParticles(seriesMode, CountOf(d)) <= 4 + (if task.imageCount.Some? then task.imageCount.value else 0);
    assert Truthy(d.originalPrompt);
  }

  /** A reference image restored for a regenerated task, with the `type` of the `File` made from it (see `FileType`). */
  datatype Reference = Reference(dataUrl: string, fileName: string, slot: string, mimeType: string)

  /** What fetching the original task gave: it threw, or a detail with its `reference_images`. */
  datatype ReferenceFetch = FetchThrew | Detail(references: Option<seq<string>>)

  /** `regenerate-<now>-<index>` */
  function ReferenceId(now: nat, index: nat): string {
    "regenerate-" + NatToString(now) + "-" + NatToString(index)
  }

  /** The reference entry for position `index` of the fetched list, whose header names `headerType`. */
  function ReferenceAt(dataUrl: string, headerType: string, index: nat): Reference {
    Reference(dataUrl, "reference-image-" + NatToString(index + 1) + ".png", "image-upload-" + NatToString(index + 1), FileType(headerType))
  }

  predicate IsPrintableAscii(c: char) {
    ' ' <= c <= '~'
  }

  predicate IsAsciiUpper(c: char) {
    'A' <= c <= 'Z'
  }

  function AsciiLower(c: char): (d: char)
    ensures IsAsciiUpper(c) ==> d as int == c as int + 32
    ensures !IsAsciiUpper(c) ==> d == c
  {
    if IsAsciiUpper(c) then (c as int + 32) as char else c
  }

  predicate AllPrintableAscii(t: string) {
    forall i :: 0 <= i < |t| ==> IsPrintableAscii(t[i])
  }

  function AsciiLowered(t: string): (r: string)
    ensures |r| == |t|
    ensures forall i :: 0 <= i < |t| ==> r[i] == AsciiLower(t[i])
  {
    if t == [] then [] else [AsciiLower(t[0])] + AsciiLowered(t[1..])
  }

  /**
   * The `type` of `new File(bits, name, { type })`: empty when some character lies outside
   * U+0020..U+007E, otherwise the type with ASCII upper case letters lowered.
   */
  function FileType(t: string): (r: string)
    ensures AllPrintableAscii(t) ==> |r| == |t| && forall i :: 0 <= i < |t| ==> r[i] == AsciiLower(t[i])
    ensures !AllPrintableAscii(t) ==> r == ""
  {
    if AllPrintableAscii(t) then AsciiLowered(t) else ""
  }

  /** The file's type is printable ASCII without upper case letters, and normalising it again changes nothing. */
  lemma FileTypeNormalised(t: string)
    ensures AllPrintableAscii(FileType(t))
    ensures forall i :: 0 <= i < |FileType(t)| ==> !IsAsciiUpper(FileType(t)[i])
    ensures FileType(FileType(t)) == FileType(t)
  {
    var r := FileType(t);
    if AllPrintableAscii(t) {
      forall i | 0 <= i < |r| ensures IsPrintableAscii(r[i]) && !IsAsciiUpper(r[i]) {
        assert r[i] == AsciiLower(t[i]);
      }
      var rr := FileType(r);
      assert |rr| == |r|;
      forall i | 0 <= i < |r| ensures rr[i] == r[i] {
        assert rr[i] == AsciiLower(r[i]);
      }
    }
  }

  /** `data:Image/PNG;base64,…` makes a file of type `image/png`; a header with a non-ASCII character makes an untyped one. */
  lemma FileTypeExamples()
    ensures FileType("Image/PNG") == "image/png"
    ensures FileType("image/pn\U{00E9}") == ""
  {
    assert FileType("Image/PNG")[0] == AsciiLower('I');
    assert !IsPrintableAscii("image/pn\U{00E9}"[8]);
  }

  /** The index of the first comma at or after `j`, if any. */
  function CommaFrom(s: string, j: nat): (c: Option<nat>)
    ensures c.Some? ==> j <= c.value < |s| && s[c.value] == ','
    decreases |s| - j
  {
    if j >= |s| then None else if s[j] == ',' then Some(j) else CommaFrom(s, j + 1)
  }

  /** `s.split(',')[0]`: the text before the first comma. */
  function BeforeComma(s: string): string {
    match CommaFrom(s, 0)
    case None => s
    case Some(c) => s[..c]
  }

  /** `s.split(',')[1]`: the text between the first and the second comma; `None` (`undefined`) without a comma. */
  function SecondPiece(s: string): Option<string> {
    match CommaFrom(s, 0)
    case None => None
    case Some(c) =>
      match CommaFrom(s, c + 1)
      case None => Some(s[c + 1..])
      case Some(d) => Some(s[c + 1..d])
  }

  /** The characters `.` does not match in a regular expression. */
  predicate IsLineTerminator(c: char) {
    c == '\n' || c == '\r' || c == '\U{2028}' || c == '\U{2029}'
  }

  /** Where `(.*?);` started at `j` ends: the first `;` at or after `j`, with no line terminator before it. */
  function SemicolonFrom(h: string, j: nat): (e: Option<nat>)
    ensures e.Some? ==> j <= e.value < |h| && h[e.value] == ';'
    decreases |h| - j
  {
    if j >= |h| || IsLineTerminator(h[j]) then None
    else if h[j] == ';' then Some(j)
    else SemicolonFrom(h, j + 1)
  }

  /**
   * The group of `h.match(/:(.*?);/)`, searching from `i`: the leftmost colon that starts a
   * match; `None` (`null`) when none does.
   */
  function MimeFrom(h: string, i: nat): Option<string>
    decreases |h| - i
  {
    if i >= |h| then None
    else if h[i] == ':' && SemicolonFrom(h, i + 1).Some? then Some(h[i + 1..SemicolonFrom(h, i + 1).value])
    else MimeFrom(h, i + 1)
  }

  /** Without a colon from `i` on, the expression finds no match. */
  lemma {:induction false} NoColonFrom(h: string, i: nat)
    requires forall k :: i <= k < |h| ==> h[k] != ':'
    ensures MimeFrom(h, i).None?
    decreases |h| - i
  {
    if i < |h| {
      NoColonFrom(h, i + 1);
    }
  }

  /** The ASCII whitespace the forgiving-base64 decode of the HTML standard removes. */
  predicate IsAsciiWhitespace(c: char) {
    c == '\t' || c == '\n' || c == '\U{000C}' || c == '\r' || c == ' '
  }

  predicate IsBase64Char(c: char) {
    ('A' <= c <= 'Z') || ('a' <= c <= 'z') || ('0' <= c <= '9') || c == '+' || c == '/'
  }

  function WithoutAsciiWhitespace(s: string): (r: string)
    ensures |r| <= |s|
  {
    if s == [] then []
    else if IsAsciiWhitespace(s[0]) then WithoutAsciiWhitespace(s[1..])
    else [s[0]] + WithoutAsciiWhitespace(s[1..])
  }

  /** Every character is a base64 digit. */
  predicate AllBase64(s: string) {
    s == [] || (IsBase64Char(s[0]) && AllBase64(s[1..]))
  }

  /** One or two final `=` removed when the length is a multiple of four. */
  function Unpadded(t: string): (u: string)
    ensures |u| <= |t|
  {
    if |t| % 4 == 0 && |t| >= 2 && t[|t| - 2] == '=' && t[|t| - 1] == '=' then t[..|t| - 2]
    else if |t| % 4 == 0 && |t| >= 1 && t[|t| - 1] == '=' then t[..|t| - 1]
    else t
  }

  /**
   * Whether `atob(s)` returns rather than throws: after removing ASCII whitespace and, when
   * the length is a multiple of four, one or two final `=`, the length must not leave a
   * remainder of one and every character must be a base64 digit.
   */
  predicate AtobAccepts(s: string) {
    var u := Unpadded(WithoutAsciiWhitespace(s));
    |u| % 4 != 1 && AllBase64(u)
  }

  /**
   * `dataURLtoFile`: the type of the file it makes, or `None` when it throws, because the
   * part before the first comma has no `:…;` header (`match` gives `null`) or `atob`
   * refuses the part after it (the string `"undefined"` when there is no comma).
   */
  function DataUrlType(dataUrl: string): Option<string> {
    var mime := MimeFrom(BeforeComma(dataUrl), 0);
    var payload := if SecondPiece(dataUrl).Some? then SecondPiece(dataUrl).value else "undefined";
    if mime.Some? && AtobAccepts(payload) then mime else None
  }

  /**
   * The types of the files the fetched references convert to, in order, up to the first
   * reference whose conversion throws (all of them, when none does).
   */
  function ConvertedTypes(refs: seq<string>): (t: seq<string>)
    ensures |t| <= |refs|
  {
    if refs == [] then []
    else
      match DataUrlType(refs[0])
      case None => []
      case Some(m) => [m] + ConvertedTypes(refs[1..])
  }

  /** Reference `i` converts exactly when `i` is not yet the end of `ConvertedTypes`, and then to the listed type. */
  lemma {:induction false} ConvertedTypesAt(refs: seq<string>, i: nat)
    requires i < |refs| && i <= |ConvertedTypes(refs)|
    ensures DataUrlType(refs[i]).None? <==> i == |ConvertedTypes(refs)|
    ensures i < |ConvertedTypes(refs)| ==> DataUrlType(refs[i]) == Some(ConvertedTypes(refs)[i])
    decreases i
  {
    var rest := refs[1..];
    if DataUrlType(refs[0]).Some? {
      var t := ConvertedTypes(refs);
      assert t == [DataUrlType(refs[0]).value] + ConvertedTypes(rest);
      if i > 0 {
        ConvertedTypesAt(rest, i - 1);
        assert refs[i] == rest[i - 1];
        assert i < |t| ==> t[i] == ConvertedTypes(rest)[i - 1];
      }
    }
  }

  /**
   * Every reference before the end of `ConvertedTypes` converts, to the listed type, and
   * the reference just after it, if any, does not.
   */
  lemma ConvertedTypesSpec(refs: seq<string>)
    ensures forall i :: 0 <= i < |ConvertedTypes(refs)| ==> DataUrlType(refs[i]) == Some(ConvertedTypes(refs)[i])
    ensures |ConvertedTypes(refs)| < |refs| ==> DataUrlType(refs[|ConvertedTypes(refs)|]).None?
  {
    var t := ConvertedTypes(refs);
    forall i | 0 <= i < |t| ensures DataUrlType(refs[i]) == Some(t[i]) {
      ConvertedTypesAt(refs, i);
    }
    if |t| < |refs| {
      ConvertedTypesAt(refs, |t|);
    }
  }

  /** Example (the general fact is `ConvertedTypesStopAtFirstFailure`): a data URL without a colon has no `:…;` header, so converting it throws. */
  lemma NoColonNoType(dataUrl: string)
    requires forall i :: 0 <= i < |dataUrl| ==> dataUrl[i] != ':'
    ensures DataUrlType(dataUrl).None?
  {
    var head := BeforeComma(dataUrl);
    assert |head| <= |dataUrl| && forall i :: 0 <= i < |head| ==> head[i] == dataUrl[i];
    NoColonFrom(head, 0);
  }

  /** The restore stops exactly at the first reference that cannot be converted. */
  lemma ConvertedTypesStopAtFirstFailure(refs: seq<string>, k: nat)
    requires k < |refs| && DataUrlType(refs[k]).None?
    requires forall i :: 0 <= i < k ==> DataUrlType(refs[i]).Some?
    ensures |ConvertedTypes(refs)| == k
  {
    ConvertedTypesSpec(refs);
  }

  /** Whether the regenerate handler rebuilds references from the fetched detail. */
  predicate RestoresFrom(hasReferenceImages: bool, taskId: Option<string>, fetch: ReferenceFetch) {
    hasReferenceImages && Truthy(taskId) && fetch.Detail? && fetch.references.Some?
  }

  /**
   * The reference map a regenerate rebuilds, with `clock[i]` the `Date.now()` read for
   * entry `i`: fetched only for a card with reference images and a task id, one entry per
   * image of a `reference_images` list with slot `image-upload-<index+1>`, until the first
   * data URL that `dataURLtoFile` cannot convert. That throw, like a failed fetch, is
   * caught: the entries made so far stay and a warning is shown.
   */
  method RestoreReferences(hasReferenceImages: bool, taskId: Option<string>, fetch: ReferenceFetch, clock: seq<nat>)
    returns (restored: seq<(string, Reference)>, warned: bool)
    requires RestoresFrom(hasReferenceImages, taskId, fetch) ==> |clock| >= |fetch.references.value|
    ensures RestoresFrom(hasReferenceImages, taskId, fetch) ==> |restored| == |ConvertedTypes(fetch.references.value)|
    ensures !RestoresFrom(hasReferenceImages, taskId, fetch) ==> restored == []
    ensures forall i :: 0 <= i < |restored| ==>
      var dataUrl := fetch.references.value[i];
      restored[i] == (ReferenceId(clock[i], i), ReferenceAt(dataUrl, ConvertedTypes(fetch.references.value)[i], i))
    ensures UniqueKeys(restored)
    ensures warned <==> (
      && hasReferenceImages && Truthy(taskId)
      && (fetch.FetchThrew? || (RestoresFrom(hasReferenceImages, taskId, fetch) && |ConvertedTypes(fetch.references.value)| < |fetch.references.value|)))
  {
    restored := [];
    if !RestoresFrom(hasReferenceImages, taskId, fetch) {
      warned := hasReferenceImages && Truthy(taskId) && fetch.FetchThrew?;
      return;
    }
    var refs := fetch.references.value;
    warned := false;
    var index := 0;
    ghost var types := ConvertedTypes(refs);
    while index < |refs|
      invariant index <= |types| && |restored| == index
      invariant forall i :: 0 <= i < index ==> restored[i] == RestoredEntry(refs[i], types[i], clock[i], i)
      invariant !warned
    {
      ConvertedTypesAt(refs, index);
      var mimeType := DataUrlType(refs[index]);
      if mimeType.None? {
        warned := true;
        break;
      }
      var entry := RestoredEntry(refs[index], mimeType.value, clock[index], index);
      RestoredGrows(restored, refs, types, clock, entry);
      restored := restored + [entry];
      index := index + 1;
    }
    RestoredEntriesUnique(restored, clock);
  }

  /** The entry for fetched image `index`, with `now` the clock reading taken for it. */
  function RestoredEntry(dataUrl: string, mimeType: string, now: nat, index: nat): (string, Reference) {
    (ReferenceId(now, index), ReferenceAt(dataUrl, mimeType, index))
  }

  /** Appending the next entry keeps the restored list equal, entry by entry, to the first images' entries. */
  lemma RestoredGrows(restored: seq<(string, Reference)>, refs: seq<string>, types: seq<string>, clock: seq<nat>, entry: (string, Reference))
    requires |restored| < |refs| && |restored| < |types| && |restored| < |clock|
    requires forall i :: 0 <= i < |restored| ==> restored[i] == RestoredEntry(refs[i], types[i], clock[i], i)
    requires entry == RestoredEntry(refs[|restored|], types[|restored|], clock[|restored|], |restored|)
    ensures forall i :: 0 <= i < |restored| + 1 ==> (restored + [entry])[i] == RestoredEntry(refs[i], types[i], clock[i], i)
  {
  }

  /** Entries keyed `regenerate-<clock[i]>-<i>` never share an id, whatever the clock reads. */
  lemma RestoredEntriesUnique(restored: seq<(string, Reference)>, clock: seq<nat>)
    requires |restored| <= |clock|
    requires forall i :: 0 <= i < |restored| ==> restored[i].0 == ReferenceId(clock[i], i)
    ensures UniqueKeys(restored)
  {
    forall i, j | 0 <= i < j < |restored| ensures restored[i].0 != restored[j].0 {
      ReferenceIdsDistinct(clock[i], i, clock[j], j);
    }
  }

  /** Entries for different positions get different ids, whatever the clock read for each. */
  lemma ReferenceIdsDistinct(t: nat, i: nat, u: nat, j: nat)
    requires i != j
    ensures ReferenceId(t, i) != ReferenceId(u, j)
  {
    if ReferenceId(t, i) == ReferenceId(u, j) {
      var prefix := "regenerate-";
      var x, y := NatToString(t) + "-" + NatToString(i), NatToString(u) + "-" + NatToString(j);
      assert ReferenceId(t, i) == prefix + x && ReferenceId(u, j) == prefix + y;
      assert x == (prefix + x)[|prefix|..] && y == (prefix + y)[|prefix|..];
      SplitAtDash(NatToString(t), NatToString(i), NatToString(u), NatToString(j));
      NatToStringInjective(i, j);
    }
  }

  /** The position of the first dash (the length when there is none). */
  function FirstDash(s: string): nat {
    if s == [] || s[0] == '-' then 0 else 1 + FirstDash(s[1..])
  }

  lemma {:induction false} FirstDashAfterDigits(a: string, r: string)
    requires AllDigits(a)
    ensures FirstDash(a + "-" + r) == |a|
  {
    if a != [] {
      assert (a + "-" + r)[1..] == a[1..] + "-" + r;
      FirstDashAfterDigits(a[1..], r);
    }
  }

  /** A run of digits followed by a dash ends exactly at the dash. */
  lemma SplitAtDash(a: string, r: string, b: string, q: string)
    requires AllDigits(a) && AllDigits(b) && a + "-" + r == b + "-" + q
    ensures a == b && r == q
  {
    var x, y := a + "-" + r, b + "-" + q;
    FirstDashAfterDigits(a, r);
    FirstDashAfterDigits(b, q);
    assert a == x[..|a|] && b == y[..|b|];
    assert r == x[|a| + 1..] && q == y[|b| + 1..];
  }

  /** The regenerated card says it has reference images exactly when some were restored. */
  function RegeneratedHasReferences(restored: seq<(string, Reference)>): (flag: string)
    ensures flag == "true" <==> |restored| > 0
  {
    if |restored| > 0 then "true" else "false"
  }

  // ---------------------------------------------------------------- upload panel

  const MaxRows: nat := 3

  /** `img_<n>` */
  function ImageName(n: nat): string {
    "img_" + NatToString(n)
  }

  /** `row_<n>` */
  function RowName(n: nat): string {
    "row_" + NatToString(n)
  }

  /** No key is made from a counter value at or above `counter`. */
  ghost predicate KeysBelow<V>(m: seq<(string, V)>, prefix: string, counter: nat) {
    forall n: nat :: n >= counter ==> !HasKey(m, prefix + NatToString(n))
  }

  /** Setting the next counter value appends a fresh entry and keeps every key below the raised counter. */
  lemma AppendFresh<V(!new)>(m: seq<(string, V)>, prefix: string, counter: nat, v: V)
    requires UniqueKeys(m) && KeysBelow(m, prefix, counter)
    ensures !HasKey(m, prefix + NatToString(counter))
    ensures Set(m, prefix + NatToString(counter), v) == m + [(prefix + NatToString(counter), v)]
    ensures UniqueKeys(Set(m, prefix + NatToString(counter), v))
    ensures KeysBelow(Set(m, prefix + NatToString(counter), v), prefix, counter + 1)
  {
    var k := prefix + NatToString(counter);
    assert !HasKey(m, k);
    SetEntries(m, k, v);
    SetKeys(m, k, v);
    var r := m + [(k, v)];
    forall n: nat | n >= counter + 1 ensures !HasKey(r, prefix + NatToString(n)) {
      if HasKey(r, prefix + NatToString(n)) {
        var i :| 0 <= i < |r| && r[i].0 == prefix + NatToString(n);
        if i == |m| {
          PrefixedNumberInjective(prefix, counter, n);
        }
      }
    }
  }

  /** Deleting keeps every key below the counter. */
  lemma RemoveKeepsKeysBelow<V>(m: seq<(string, V)>, k: string, prefix: string, counter: nat)
    requires KeysBelow(m, prefix, counter)
    ensures KeysBelow(Remove(m, k), prefix, counter)
  {
    forall n: nat | n >= counter ensures !HasKey(Remove(m, k), prefix + NatToString(n)) {
      var r := Remove(m, k);
      if HasKey(r, prefix + NatToString(n)) {
        var i :| 0 <= i < |r| && r[i].0 == prefix + NatToString(n);
        RemoveEntries(m, k, r[i]);
      }
    }
  }

  datatype PanelImage = PanelImage(file: File, dataUrl: string)

  /** Whether a detach goes through `slotImageMap`. */
  predicate SlotMapped(slots: seq<(string, string)>, lab: Label) {
    lab.slot != "" && HasKey(slots, lab.slot)
  }

  /** The panel's three maps: the images, the slot-to-image map and the labels. */
  datatype PanelState = PanelState(images: seq<(string, PanelImage)>, slots: seq<(string, string)>, labels: map<LabelId, Label>)

  /**
   * `detachLabelImage(l)` on the panel's maps: a label whose slot is mapped deletes the
   * mapped image and the mapping and resets every label of the slot; any other label
   * deletes its own `data-image-id` entry, if any, and resets itself.
   */
  function Detach(s: PanelState, l: LabelId): (r: PanelState)
    requires l in s.labels
    ensures r.labels.Keys == s.labels.Keys && OnlyCleared(s.labels, r.labels)
    ensures forall x :: x in r.labels ==> r.labels[x].slot == s.labels[x].slot && r.labels[x].attached == s.labels[x].attached
  {
    var lab := s.labels[l];
    if SlotMapped(s.slots, lab) then
      PanelState(Remove(s.images, Get(s.slots, lab.slot).value), Remove(s.slots, lab.slot), ResetSlot(s.labels, lab.slot))
    else
      PanelState(if Truthy(lab.imageId) then Remove(s.images, lab.imageId.value) else s.images,
                 s.slots, s.labels[l := lab.(imageId := None)])
  }

  /**
   * A detach drops the label's previous image, whether the slot map or the label itself
   * named it, and the label no longer previews anything (a label out of the document is
   * not reached by the slot's reset).
   */
  lemma DetachDropsPrevious(s: PanelState, l: LabelId)
    requires l in s.labels
    ensures SlotMapped(s.slots, s.labels[l]) ==>
      !HasKey(Detach(s, l).images, Get(s.slots, s.labels[l].slot).value) && !HasKey(Detach(s, l).slots, s.labels[l].slot)
    ensures !SlotMapped(s.slots, s.labels[l]) && Truthy(s.labels[l].imageId) ==>
      !HasKey(Detach(s, l).images, s.labels[l].imageId.value)
    ensures s.labels[l].attached || !SlotMapped(s.slots, s.labels[l]) ==> Detach(s, l).labels[l].imageId.None?
  {
    var lab := s.labels[l];
    if SlotMapped(s.slots, lab) {
      RemoveGet(s.images, Get(s.slots, lab.slot).value, Get(s.slots, lab.slot).value);
      RemoveGet(s.slots, lab.slot, lab.slot);
    } else if Truthy(lab.imageId) {
      RemoveGet(s.images, lab.imageId.value, lab.imageId.value);
    }
  }

  /** `row.remove()`: the row's two labels leave the document. */
  function LeaveRow(s: PanelState, r: Row): (t: PanelState)
    requires r.pic1 in s.labels && r.pic2 in s.labels
    ensures t.labels.Keys == s.labels.Keys
  {
    var labels := s.labels[r.pic1 := s.labels[r.pic1].(attached := false)];
    s.(labels := labels[r.pic2 := labels[r.pic2].(attached := false)])
  }

  /** Both labels of a row detached, the first one first, and the row out of the document. */
  function RowRemoved(s: PanelState, r: Row): PanelState
    requires r.pic1 in s.labels && r.pic2 in s.labels
  {
    LeaveRow(Detach(Detach(s, r.pic1), r.pic2), r)
  }

  class UploadPanel {
    var uploadedImages: seq<(string, PanelImage)>
    var slotImageMap: seq<(string, string)>
    var uploadRows: seq<(string, Row)>
    var rowIdCounter: nat
    var imageIdCounter: nat
    var labels: map<LabelId, Label>
    /** The add-row button's `disabled` property. */
    var addDisabled: bool

    function Panel(): PanelState
      reads this
    {
      PanelState(uploadedImages, slotImageMap, labels)
    }

    ghost predicate Valid()
      reads this
    {
      && UniqueKeys(uploadedImages) && KeysBelow(uploadedImages, "img_", imageIdCounter)
      && UniqueKeys(slotImageMap)
      && UniqueKeys(uploadRows) && KeysBelow(uploadRows, "row_", rowIdCounter)
      && |uploadRows| <= MaxRows
      && (addDisabled <==> |uploadRows| == MaxRows)
      && (forall e :: e in uploadRows ==> e.1.pic1 in labels && e.1.pic2 in labels)
    }

    constructor(document: map<LabelId, Label>)
      ensures Valid()
      ensures uploadedImages == [] && slotImageMap == [] && uploadRows == []
      ensures rowIdCounter == 0 && imageIdCounter == 0 && labels == document && !addDisabled
    {
      uploadedImages := [];
      slotImageMap := [];
      uploadRows := [];
      rowIdCounter := 0;
      imageIdCounter := 0;
      labels := document;
      addDisabled := false;
    }

    /**
     * `detachLabelImage`: a label whose slot is mapped deletes the mapped image and the
     * mapping and resets every label of the slot; any other label deletes its own
     * `data-image-id` entry, if any, and resets itself, leaving `slotImageMap` alone.
     */
    method DetachLabelImage(l: LabelId)
      requires Valid() && l in labels
      modifies this
      ensures Valid()
      ensures Panel() == Detach(old(Panel()), l)
      ensures SlotMapped(old(slotImageMap), old(labels)[l]) ==> !HasKey(slotImageMap, old(labels)[l].slot)
      ensures uploadRows == old(uploadRows) && rowIdCounter == old(rowIdCounter)
      ensures imageIdCounter == old(imageIdCounter) && addDisabled == old(addDisabled)
    {
      var slotKey := labels[l].slot;
      if slotKey != "" && Get(slotImageMap, slotKey).Some? {
        DetachSlot(slotKey);
      } else {
        DetachOwn(l);
      }
    }

    /** The slot branch of `detachLabelImage`. */
    method DetachSlot(slot: string)
      requires Valid() && Get(slotImageMap, slot).Some?
      modifies this
      ensures Valid()
      ensures uploadedImages == Remove(old(uploadedImages), Get(old(slotImageMap), slot).value)
      ensures slotImageMap == Remove(old(slotImageMap), slot) && !HasKey(slotImageMap, slot)
      ensures labels == ResetSlot(old(labels), slot)
      ensures uploadRows == old(uploadRows) && rowIdCounter == old(rowIdCounter)
      ensures imageIdCounter == old(imageIdCounter) && addDisabled == old(addDisabled)
    {
      RemoveImage(Get(slotImageMap, slot).value);
      RemoveSize(slotImageMap, slot);
      RemoveGet(slotImageMap, slot, slot);
      slotImageMap := Remove(slotImageMap, slot);
      labels := ResetSlot(labels, slot);
    }

    /** The label branch of `detachLabelImage`. */
    method DetachOwn(l: LabelId)
      requires Valid() && l in labels
      modifies this
      ensures Valid()
      ensures uploadedImages == (if Truthy(old(labels)[l].imageId) then Remove(old(uploadedImages), old(labels)[l].imageId.value) else old(uploadedImages))
      ensures labels == old(labels)[l := old(labels)[l].(imageId := None)]
      ensures slotImageMap == old(slotImageMap) && uploadRows == old(uploadRows) && rowIdCounter == old(rowIdCounter)
      ensures imageIdCounter == old(imageIdCounter) && addDisabled == old(addDisabled)
    {
      var lab := labels[l];
      if Truthy(lab.imageId) {
        RemoveImage(lab.imageId.value);
      }
      labels := labels[l := lab.(imageId := None)];
    }

    method RemoveImage(id: string)
      requires Valid()
      modifies this
      ensures Valid()
      ensures uploadedImages == Remove(old(uploadedImages), id)
      ensures slotImageMap == old(slotImageMap) && labels == old(labels) && uploadRows == old(uploadRows)
      ensures rowIdCounter == old(rowIdCounter) && imageIdCounter == old(imageIdCounter) && addDisabled == old(addDisabled)
    {
      RemoveSize(uploadedImages, id);
      RemoveKeepsKeysBelow(uploadedImages, id, "img_", imageIdCounter);
      uploadedImages := Remove(uploadedImages, id);
    }

    /**
     * `handleImageUpload(file, label)` with the `FileReader` result passed in (`None` when
     * `onload` never fires): a bad type or size changes nothing; otherwise the label is
     * detached and, once read, the image is stored under a fresh id (see `StoreImage`).
     */
    method HandleImageUpload(file: File, l: LabelId, dataUrl: Option<string>) returns (stored: Option<string>)
      requires Valid() && l in labels
      modifies this
      ensures Valid()
      ensures uploadRows == old(uploadRows) && rowIdCounter == old(rowIdCounter) && addDisabled == old(addDisabled)
      ensures stored.Some? <==> ValidateImageFile(file).Accepted? && dataUrl.Some?
      ensures !ValidateImageFile(file).Accepted? ==> Panel() == old(Panel()) && imageIdCounter == old(imageIdCounter)
      ensures ValidateImageFile(file).Accepted? && dataUrl.None? ==>
        Panel() == Detach(old(Panel()), l) && imageIdCounter == old(imageIdCounter)
      ensures stored.Some? ==>
        var detached := Detach(old(Panel()), l);
        var slot := old(labels)[l].slot;
        var id := ImageName(old(imageIdCounter));
        && stored == Some(id) && imageIdCounter == old(imageIdCounter) + 1
        && !HasKey(detached.images, id)
        && uploadedImages == detached.images + [(id, PanelImage(file, dataUrl.value))]
        && (slot != "" ==> labels == PreviewSlot(detached.labels, slot, id) && slotImageMap == Set(detached.slots, slot, id))
        && (slot == "" ==> labels == detached.labels[l := detached.labels[l].(imageId := Some(id))] && slotImageMap == detached.slots)
    {
      stored := None;
      if !ValidateImageFile(file).Accepted? {
        return;
      }
      DetachLabelImage(l);
      if dataUrl.None? {
        return;
      }
      var id := StoreImage(file, l, dataUrl.value);
      stored := Some(id);
    }

    /**
     * The reader's `onload`: the image is appended under `img_<counter>`, the counter
     * advances, every label of the slot (or the label alone) previews it, and the slot,
     * if any, is mapped to it.
     */
    method StoreImage(file: File, l: LabelId, dataUrl: string) returns (id: string)
      requires Valid() && l in labels
      modifies this
      ensures Valid()
      ensures id == ImageName(old(imageIdCounter)) && imageIdCounter == old(imageIdCounter) + 1
      ensures !HasKey(old(uploadedImages), id)
      ensures uploadedImages == old(uploadedImages) + [(id, PanelImage(file, dataUrl))]
      ensures Get(uploadedImages, id) == Some(PanelImage(file, dataUrl))
      ensures old(labels)[l].slot != "" ==>
        && labels == PreviewSlot(old(labels), old(labels)[l].slot, id)
        && slotImageMap == Set(old(slotImageMap), old(labels)[l].slot, id)
        && Get(slotImageMap, old(labels)[l].slot) == Some(id)
      ensures old(labels)[l].slot == "" ==>
        labels == old(labels)[l := old(labels)[l].(imageId := Some(id))] && slotImageMap == old(slotImageMap)
      ensures labels.Keys == old(labels).Keys
      ensures uploadRows == old(uploadRows) && rowIdCounter == old(rowIdCounter) && addDisabled == old(addDisabled)
    {
      id := AppendImage(file, dataUrl);
      ShowPreview(l, id);
    }

    /** `uploadedImages.set(img_<counter>, …)` with the counter post-incremented. */
    method AppendImage(file: File, dataUrl: string) returns (id: string)
      requires Valid()
      modifies this
      ensures Valid()
      ensures id == ImageName(old(imageIdCounter)) && imageIdCounter == old(imageIdCounter) + 1
      ensures !HasKey(old(uploadedImages), id)
      ensures uploadedImages == old(uploadedImages) + [(id, PanelImage(file, dataUrl))]
      ensures Get(uploadedImages, id) == Some(PanelImage(file, dataUrl))
      ensures labels == old(labels) && slotImageMap == old(slotImageMap)
      ensures uploadRows == old(uploadRows) && rowIdCounter == old(rowIdCounter) && addDisabled == old(addDisabled)
    {
      id := ImageName(imageIdCounter);
      var entry := PanelImage(file, dataUrl);
      AppendFresh(uploadedImages, "img_", imageIdCounter, entry);
      SetGet(uploadedImages, id, entry, id);
      uploadedImages := Set(uploadedImages, id, entry);
      imageIdCounter := imageIdCounter + 1;
    }

    /** `showImagePreview` followed by `slotImageMap.set(slot, id)` for a label with a slot. */
    method ShowPreview(l: LabelId, id: string)
      requires Valid() && l in labels
      modifies this
      ensures Valid()
      ensures old(labels)[l].slot != "" ==>
        && labels == PreviewSlot(old(labels), old(labels)[l].slot, id)
        && slotImageMap == Set(old(slotImageMap), old(labels)[l].slot, id)
        && Get(slotImageMap, old(labels)[l].slot) == Some(id)
      ensures old(labels)[l].slot == "" ==>
        labels == old(labels)[l := old(labels)[l].(imageId := Some(id))] && slotImageMap == old(slotImageMap)
      ensures labels.Keys == old(labels).Keys
      ensures uploadedImages == old(uploadedImages) && imageIdCounter == old(imageIdCounter)
      ensures uploadRows == old(uploadRows) && rowIdCounter == old(rowIdCounter) && addDisabled == old(addDisabled)
    {
      var slotKey := labels[l].slot;
      if slotKey != "" {
        labels := PreviewSlot(labels, slotKey, id);
        SetKeys(slotImageMap, slotKey, id);
        SetGet(slotImageMap, slotKey, id, slotKey);
        slotImageMap := Set(slotImageMap, slotKey, id);
      } else {
        labels := labels[l := labels[l].(imageId := Some(id))];
      }
    }

    /**
     * The add-row click: refused at three rows; otherwise a row `row_<counter>` with slots
     * `<rowId>-1` and `<rowId>-2` is appended, and the button is disabled once three exist.
     */
    method AddUploadRow(pic1: LabelId, pic2: LabelId) returns (added: bool)
      requires Valid() && pic1 != pic2 && pic1 !in labels && pic2 !in labels
      modifies this
      ensures Valid()
      ensures added <==> |old(uploadRows)| < MaxRows
      ensures !added ==> uploadRows == old(uploadRows) && labels == old(labels) && rowIdCounter == old(rowIdCounter)
      ensures added ==>
        var rowId := RowName(old(rowIdCounter));
        && rowIdCounter == old(rowIdCounter) + 1
        && !HasKey(old(uploadRows), rowId)
        && uploadRows == old(uploadRows) + [(rowId, Row(pic1, pic2))]
        && labels == old(labels)[pic1 := Label(rowId + "-1", None, true)][pic2 := Label(rowId + "-2", None, true)]
      ensures uploadedImages == old(uploadedImages) && slotImageMap == old(slotImageMap)
      ensures imageIdCounter == old(imageIdCounter)
    {
      if |uploadRows| >= MaxRows {
        return false;
      }
      var rowId := RowName(rowIdCounter);
      var row := Row(pic1, pic2);
      AppendFresh(uploadRows, "row_", rowIdCounter, row);
      labels := labels[pic1 := Label(rowId + "-1", None, true)][pic2 := Label(rowId + "-2", None, true)];
      forall e | e in uploadRows + [(rowId, row)] ensures e.1.pic1 in labels && e.1.pic2 in labels {
      }
      uploadRows := uploadRows + [(rowId, row)];
      rowIdCounter := rowIdCounter + 1;
      addDisabled := |uploadRows| >= MaxRows;
      return true;
    }

    /**
     * A row's delete button: for a known row both labels are detached, the row leaves the
     * document and the map, and the add button is enabled again.
     */
    method DeleteRow(rowId: string)
      requires Valid()
      modifies this
      ensures Valid()
      ensures !HasKey(old(uploadRows), rowId) ==>
        && uploadRows == old(uploadRows) && Panel() == old(Panel()) && addDisabled == old(addDisabled)
      ensures HasKey(old(uploadRows), rowId) ==>
        && uploadRows == Remove(old(uploadRows), rowId)
        && |uploadRows| == |old(uploadRows)| - 1
        && Panel() == RowRemoved(old(Panel()), Get(old(uploadRows), rowId).value)
        && !addDisabled
      ensures rowIdCounter == old(rowIdCounter) && imageIdCounter == old(imageIdCounter)
    {
      var row := Get(uploadRows, rowId);
      if row.None? {
        return;
      }
      assert (rowId, row.value) in uploadRows;
      DetachRow(row.value);
      ForgetRow(rowId);
    }

    /** The row leaves the row map, and the add button is enabled again. */
    method ForgetRow(rowId: string)
      requires Valid() && HasKey(uploadRows, rowId)
      modifies this
      ensures Valid()
      ensures uploadRows == Remove(old(uploadRows), rowId) && |uploadRows| == |old(uploadRows)| - 1
      ensures !addDisabled && Panel() == old(Panel())
      ensures rowIdCounter == old(rowIdCounter) && imageIdCounter == old(imageIdCounter)
    {
      RemoveSize(uploadRows, rowId);
      RemoveKeepsKeysBelow(uploadRows, rowId, "row_", rowIdCounter);
      forall e | e in Remove(uploadRows, rowId) ensures e.1.pic1 in labels && e.1.pic2 in labels {
        RemoveEntries(uploadRows, rowId, e);
      }
      uploadRows := Remove(uploadRows, rowId);
      addDisabled := false;
    }

    /** Both labels of the row are detached, then the row element leaves the document. */
    method DetachRow(r: Row)
      requires Valid() && r.pic1 in labels && r.pic2 in labels
      modifies this
      ensures Valid()
      ensures Panel() == RowRemoved(old(Panel()), r)
      ensures uploadRows == old(uploadRows) && rowIdCounter == old(rowIdCounter)
      ensures imageIdCounter == old(imageIdCounter) && addDisabled == old(addDisabled)
    {
      DetachLabelImage(r.pic1);
      DetachLabelImage(r.pic2);
      LeaveDocument(r);
    }

    /** `row.remove()`: the row's two labels leave the document. */
    method LeaveDocument(r: Row)
      requires Valid() && r.pic1 in labels && r.pic2 in labels
      modifies this
      ensures Valid()
      ensures Panel() == LeaveRow(old(Panel()), r)
      ensures uploadRows == old(uploadRows) && rowIdCounter == old(rowIdCounter)
      ensures imageIdCounter == old(imageIdCounter) && addDisabled == old(addDisabled)
    {
      var updated := labels[r.pic1 := labels[r.pic1].(attached := false)];
      updated := updated[r.pic2 := updated[r.pic2].(attached := false)];
      assert updated.Keys == labels.Keys;
      labels := updated;
    }
  }
}
