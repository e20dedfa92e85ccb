/**
 * The generation orchestrator of the v2 frontend (`ImageService`): mode detection, prompt
 * variants, request batching, one retry, success/failure accounting, the refund request,
 * and the post-processing of returned image records.
 *
 * The network is replaced by scripted outcomes: `initial[i]` is what the first request for
 * index `i` yields, `retry[p]` what a retry issued as `generateSingle(p)` yields (text to
 * image), and `first[i]`/`second[i]` the two attempts of slot `i` (image to image).
 * `Promise.allSettled` is modelled by processing every dispatched request's outcome in
 * dispatch order; the 2 s back-off and 6 s pacing delay become steps of the plan.
 */
module ImageService {
  import opened Wrappers
  import opened Strings
  import opened Images

  // ---------------------------------------------------------------- mode and prompts

  datatype Mode = Series | TextToImage | ImageToImage

  /** `detectMode`: the series switch wins; otherwise the presence of reference images decides. */
  function DetectMode(imageCount: nat, seriesMode: bool): (m: Mode)
    ensures seriesMode <==> m == Series
    ensures !seriesMode ==> (m == TextToImage <==> imageCount == 0)
  {
    if seriesMode then Series
    else if imageCount == 0 then TextToImage
    else ImageToImage
  }

  function Spaces(n: nat): (s: string)
    ensures |s| == n && forall i :: 0 <= i < n ==> s[i] == ' '
  {
    seq(n, _ => ' ')
  }

  /** `generateVariantPrompt`: a single image keeps the prompt; otherwise `index` spaces are appended. */
  function GenerateVariantPrompt(basePrompt: string, index: nat, total: int): (r: string)
    ensures total == 1 ==> r == basePrompt
    ensures total != 1 ==> |r| == |basePrompt| + index && r[..|basePrompt|] == basePrompt
    ensures total != 1 ==> forall k :: |basePrompt| <= k < |r| ==> r[k] == ' '
  {
    if total == 1 then basePrompt else basePrompt + Spaces(index)
  }

  /** With more than one image, index 0 keeps the prompt and distinct indices give distinct prompts. */
  lemma VariantPromptsDistinct(basePrompt: string, i: nat, j: nat, total: int)
    requires total != 1
    ensures GenerateVariantPrompt(basePrompt, 0, total) == basePrompt
    ensures i != j ==> GenerateVariantPrompt(basePrompt, i, total) != GenerateVariantPrompt(basePrompt, j, total)
  {
    assert |GenerateVariantPrompt(basePrompt, 0, total)| == |basePrompt|;
  }

  // ---------------------------------------------------------------- post-processing

  const JpegPrefix: string := "data:image/jpeg;base64,"

  /**
   * The post-processing applied to every returned image: `description` is deleted and a
   * truthy `b64_json` without a truthy `url` becomes a JPEG data URI in `url`.
   */
  function Normalize(img: ImageRecord): (r: ImageRecord)
    ensures r.description.None? && r.thumbnailUrl == img.thumbnailUrl
    ensures Truthy(img.url) ==> r.url == img.url && r.b64Json == img.b64Json
    ensures !Truthy(img.url) && Truthy(img.b64Json) ==>
      r.url == Some(JpegPrefix + img.b64Json.value) && r.b64Json.None?
    ensures !Truthy(img.url) && !Truthy(img.b64Json) ==> r.url == img.url && r.b64Json == img.b64Json
    ensures Truthy(r.url) || !Truthy(r.b64Json)
  {
    if Truthy(img.b64Json) && !Truthy(img.url) then
      img.(description := None, url := Some(JpegPrefix + img.b64Json.value), b64Json := None)
    else
      img.(description := None)
  }

  /** Post-processing a second time (as `generate` does for series results) changes nothing. */
  lemma NormalizeIdempotent(img: ImageRecord)
    ensures Normalize(Normalize(img)) == Normalize(img)
  {
    var once := Normalize(img);
    if Truthy(img.b64Json) && !Truthy(img.url) {
      assert Truthy(once.url);
    }
  }

  function NormalizeAll(imgs: seq<ImageRecord>): (r: seq<ImageRecord>)
    ensures |r| == |imgs| && forall k :: 0 <= k < |imgs| ==> r[k] == Normalize(imgs[k])
  {
    if imgs == [] then [] else [Normalize(imgs[0])] + NormalizeAll(imgs[1..])
  }

  /** One more element extends a prefix by that element. */
  lemma PrefixSnoc<T>(r: seq<T>, k: nat)
    requires k < |r|
    ensures r[..k + 1] == r[..k] + [r[k]]
  {
  }

  // ---------------------------------------------------------------- requests and outcomes

  /** What a generation request settles to: a rejection, or a response carrying `images`. */
  datatype Outcome = Fail | Ok(images: seq<ImageRecord>)

  function ImagesOf(o: Outcome): seq<ImageRecord> {
    if o.Ok? then o.images else []
  }

  /** A response that carries at least one image. */
  predicate Delivered(o: Outcome) {
    o.Ok? && |o.images| > 0
  }

  /** The JSON body of a text-to-image request; `requireAuth` is whether a token is stored. */
  datatype TextRequest = TextRequest(
    prompt: string, n: nat, size: string, clientTaskId: string, totalImageCount: nat,
    aspectRatio: string, requireAuth: bool)

  /** The form of an image-to-image request. */
  datatype EditRequest = EditRequest(
    prompt: string, taskId: string, totalImageCount: nat, images: seq<File>,
    aspectRatio: string, requireAuth: bool)

  /** The form posted to `/api/refund-task`. */
  datatype RefundRequest = RefundRequest(
    taskId: string, expectedCount: string, actualCount: string, mode: string)

  datatype Status = Processing | Completed

  /** The argument of an `onProgress` call; `failed` is present only when the call reports it. */
  datatype Progress = Progress(
    status: Status, images: seq<ImageRecord>, completed: nat, failed: Option<nat>, total: nat)

  /** The object `textToImage` and `imageToImage` resolve to. */
  datatype GenerationResult = GenerationResult(
    images: seq<ImageRecord>, taskId: string, successCount: int, failedCount: int)

  const RefundEndpoint: string := "/api/refund-task"

  /** A refund is requested exactly when images are missing and a (truthy) token is stored. */
  function RefundFor(taskId: string, count: nat, success: nat, mode: string, token: Option<string>): (r: Option<RefundRequest>)
    ensures r.Some? <==> success < count && Truthy(token)
    ensures r.Some? ==> r.value.taskId == taskId && r.value.mode == mode
    ensures r.Some? ==> ParseInt(r.value.expectedCount) == Num(count) && ParseInt(r.value.actualCount) == Num(success)
  {
    if count - success > 0 && Truthy(token) then
      ParseIntOfNatToString(count);
      ParseIntOfNatToString(success);
      Some(RefundRequest(taskId, NatToString(count), NatToString(success), mode))
    else None
  }

  // ---------------------------------------------------------------- plans

  /** A step of a request plan: start request `index`, await everything started so far, or sleep. */
  datatype Step = Dispatch(index: nat) | AwaitAll | Wait(ms: nat)

  /** The indices `lo, lo + 1, ..., hi - 1`. */
  function Range(lo: nat, hi: nat): (r: seq<nat>)
    requires lo <= hi
    ensures |r| == hi - lo && forall k :: 0 <= k < |r| ==> r[k] == lo + k
    decreases hi - lo
  {
    if lo == hi then [] else Range(lo, hi - 1) + [hi - 1]
  }

  /** Starts requests `lo .. hi - 1`, in order. */
  function DispatchRange(lo: nat, hi: nat): (r: seq<Step>)
    requires lo <= hi
    ensures |r| == hi - lo && forall k :: 0 <= k < |r| ==> r[k] == Dispatch(lo + k)
    decreases hi - lo
  {
    if lo == hi then [] else DispatchRange(lo, hi - 1) + [Dispatch(hi - 1)]
  }

  /** Starts one request for each of the first `n` arguments, in order. */
  function DispatchEach(args: seq<nat>, n: nat): (r: seq<Step>)
    requires n <= |args|
    ensures |r| == n && forall k :: 0 <= k < n ==> r[k] == Dispatch(args[k])
  {
    if n == 0 then [] else DispatchEach(args, n - 1) + [Dispatch(args[n - 1])]
  }

  /** The request indices the first `n` steps of a plan start, in order. */
  function DispatchedUpTo(steps: seq<Step>, n: nat): seq<nat>
    requires n <= |steps|
  {
    if n == 0 then []
    else DispatchedUpTo(steps, n - 1) + (if steps[n - 1].Dispatch? then [steps[n - 1].index] else [])
  }

  /** The request indices a plan starts, in order. */
  function Dispatched(steps: seq<Step>): seq<nat> {
    DispatchedUpTo(steps, |steps|)
  }

  lemma {:induction false} DispatchedUpToPrefix(a: seq<Step>, b: seq<Step>, n: nat)
    requires n <= |a|
    ensures DispatchedUpTo(a + b, n) == DispatchedUpTo(a, n)
  {
    if n > 0 {
      DispatchedUpToPrefix(a, b, n - 1);
      assert (a + b)[n - 1] == a[n - 1];
    }
  }

  lemma {:induction false} DispatchedUpToSuffix(a: seq<Step>, b: seq<Step>, m: nat)
    requires m <= |b|
    ensures DispatchedUpTo(a + b, |a| + m) == Dispatched(a) + DispatchedUpTo(b, m)
  {
    if m == 0 {
      DispatchedUpToPrefix(a, b, |a|);
    } else {
      DispatchedUpToSuffix(a, b, m - 1);
      assert (a + b)[|a| + m - 1] == b[m - 1];
    }
  }

  /** The indices a concatenation of plans starts are those of the first, then the second. */
  lemma DispatchedAppend(a: seq<Step>, b: seq<Step>)
    ensures Dispatched(a + b) == Dispatched(a) + Dispatched(b)
  {
    DispatchedUpToSuffix(a, b, |b|);
  }

  lemma DispatchedSingle(s: Step)
    ensures Dispatched([s]) == if s.Dispatch? then [s.index] else []
  {
    assert DispatchedUpTo([s], 0) == [];
  }

  lemma {:induction false} DispatchedRange(lo: nat, hi: nat)
    requires lo <= hi
    ensures Dispatched(DispatchRange(lo, hi)) == Range(lo, hi)
    decreases hi - lo
  {
    if lo < hi {
      DispatchedRange(lo, hi - 1);
      DispatchedAppend(DispatchRange(lo, hi - 1), [Dispatch(hi - 1)]);
      DispatchedSingle(Dispatch(hi - 1));
    }
  }

  lemma {:induction false} DispatchedEach(args: seq<nat>, n: nat)
    requires n <= |args|
    ensures Dispatched(DispatchEach(args, n)) == args[..n]
  {
    if n > 0 {
      DispatchedEach(args, n - 1);
      DispatchedAppend(DispatchEach(args, n - 1), [Dispatch(args[n - 1])]);
      DispatchedSingle(Dispatch(args[n - 1]));
      assert args[..n] == args[..n - 1] + [args[n - 1]];
    }
  }

  /** Text to image: one batch of every index when `count <= 4`, otherwise {0,1}, awaited, then the rest. */
  function TextPlan(count: nat): seq<Step> {
    if count <= 4 then DispatchRange(0, count) + [AwaitAll]
    else DispatchRange(0, 2) + [AwaitAll] + DispatchRange(2, count) + [AwaitAll]
  }

  /** Image to image: all at once when `count <= 2`; otherwise 0 and 1, a 6 s sleep, then the rest. */
  function EditPlan(count: nat): seq<Step> {
    if count <= 2 then DispatchRange(0, count) + [AwaitAll]
    else DispatchRange(0, 2) + [Wait(6000)] + DispatchRange(2, count) + [AwaitAll]
  }

  /** A plan made of two runs of dispatches, each closed by a non-dispatching step. */
  lemma DispatchedTwoRuns(lo: nat, mid: nat, hi: nat, s: Step, t: Step)
    requires lo <= mid <= hi && !s.Dispatch? && !t.Dispatch?
    ensures Dispatched(DispatchRange(lo, mid) + [s] + DispatchRange(mid, hi) + [t]) == Range(lo, hi)
  {
    var a, b := DispatchRange(lo, mid) + [s], DispatchRange(mid, hi) + [t];
    assert DispatchRange(lo, mid) + [s] + DispatchRange(mid, hi) + [t] == a + b;
    assert Dispatched(a) == Range(lo, mid) by {
      DispatchedOneRun(lo, mid, s);
    }
    assert Dispatched(b) == Range(mid, hi) by {
      DispatchedOneRun(mid, hi, t);
    }
    DispatchedAppend(a, b);
    assert Range(lo, mid) + Range(mid, hi) == Range(lo, hi);
  }

  lemma DispatchedOneRun(lo: nat, hi: nat, t: Step)
    requires lo <= hi && !t.Dispatch?
    ensures Dispatched(DispatchRange(lo, hi) + [t]) == Range(lo, hi)
  {
    DispatchedAppend(DispatchRange(lo, hi), [t]);
    DispatchedSingle(t);
    DispatchedRange(lo, hi);
  }

  /** The initial round of text to image starts every index in [0, count) exactly once, in order. */
  lemma TextPlanDispatchesEachIndexOnce(count: nat)
    ensures Dispatched(TextPlan(count)) == Range(0, count)
  {
    if count <= 4 {
      DispatchedOneRun(0, count, AwaitAll);
    } else {
      DispatchedTwoRuns(0, 2, count, AwaitAll, AwaitAll);
    }
  }

  /**
   * With more than four images the first batch {0,1} is fully awaited before index 2 starts;
   * with at most four, the only await closes the single batch.
   */
  lemma TextPlanBatches(count: nat)
    ensures TextPlan(count)[|TextPlan(count)| - 1] == AwaitAll
    ensures count <= 4 ==> AwaitAll !in TextPlan(count)[..|TextPlan(count)| - 1]
    ensures count > 4 ==> (TextPlan(count)[..3] == [Dispatch(0), Dispatch(1), AwaitAll]
      && AwaitAll !in TextPlan(count)[3..|TextPlan(count)| - 1]
      && Dispatched(TextPlan(count)[3..]) == Range(2, count))
  {
    if count <= 4 {
      TextPlanOneBatch(count);
    } else {
      TextPlanTwoBatches(count);
    }
  }

  lemma TextPlanOneBatch(count: nat)
    requires count <= 4
    ensures TextPlan(count)[|TextPlan(count)| - 1] == AwaitAll
    ensures AwaitAll !in TextPlan(count)[..|TextPlan(count)| - 1]
  {
    var p := TextPlan(count);
    assert p[..|p| - 1] == DispatchRange(0, count);
    NoAwaitInRange(0, count);
  }

  lemma TextPlanTwoBatches(count: nat)
    requires count > 4
    ensures TextPlan(count)[|TextPlan(count)| - 1] == AwaitAll
    ensures TextPlan(count)[..3] == [Dispatch(0), Dispatch(1), AwaitAll]
    ensures AwaitAll !in TextPlan(count)[3..|TextPlan(count)| - 1]
    ensures Dispatched(TextPlan(count)[3..]) == Range(2, count)
  {
    var p := TextPlan(count);
    var first, rest := DispatchRange(0, 2), DispatchRange(2, count);
    assert p == first + [AwaitAll] + rest + [AwaitAll];
    assert first == [Dispatch(0), Dispatch(1)];
    assert p[3..|p| - 1] == rest;
    assert p[3..] == rest + [AwaitAll];
    NoAwaitInRange(2, count);
    DispatchedOneRun(2, count, AwaitAll);
  }

  /** A run of request starts contains no await. */
  lemma NoAwaitInRange(lo: nat, hi: nat)
    requires lo <= hi
    ensures AwaitAll !in DispatchRange(lo, hi)
  {
    var r := DispatchRange(lo, hi);
    forall k | 0 <= k < |r| ensures r[k] != AwaitAll {
      assert r[k] == Dispatch(lo + k);
    }
  }

  /** Image to image starts every index in [0, count) exactly once, in order. */
  lemma EditPlanDispatchesEachIndexOnce(count: nat)
    ensures Dispatched(EditPlan(count)) == Range(0, count)
  {
    if count <= 2 {
      DispatchedOneRun(0, count, AwaitAll);
    } else {
      DispatchedTwoRuns(0, 2, count, Wait(6000), AwaitAll);
    }
  }

  /**
   * Image to image awaits once, at the end; the 6000 ms sleep occurs exactly when `count > 2`,
   * right after requests 0 and 1 start, without awaiting them.
   */
  lemma EditPlanPacing(count: nat)
    ensures EditPlan(count)[|EditPlan(count)| - 1] == AwaitAll
    ensures AwaitAll !in EditPlan(count)[..|EditPlan(count)| - 1]
    ensures Wait(6000) in EditPlan(count) <==> count > 2
    ensures count > 2 ==> EditPlan(count)[..3] == [Dispatch(0), Dispatch(1), Wait(6000)]
  {
    var p := EditPlan(count);
    var body := p[..|p| - 1];
    if count <= 2 {
      assert body == DispatchRange(0, count);
      assert forall k :: 0 <= k < |p| ==> p[k] != Wait(6000) by {
        forall k | 0 <= k < |p| ensures p[k] != Wait(6000) {
          if k < |p| - 1 {
            assert p[k] == body[k];
          }
        }
      }
    } else {
      assert p[2] == Wait(6000);
      forall k | 0 <= k < |body| ensures body[k] != AwaitAll {
        assert body[k] == p[k];
        if k >= 3 {
          assert p[k] == DispatchRange(2, count)[k - 3];
        }
      }
    }
  }

  // ---------------------------------------------------------------- text to image: specification

  /** The positions among the first `n` entries of `results` that were rejected, ascending. */
  function FailedUpTo(results: seq<Outcome>, n: nat): (r: seq<nat>)
    requires n <= |results|
    ensures forall k :: 0 <= k < |r| ==> r[k] < n && results[r[k]].Fail?
    ensures forall p :: 0 <= p < n && results[p].Fail? ==> p in r
    ensures forall k, l :: 0 <= k < l < |r| ==> r[k] < r[l]
    ensures |r| <= n
  {
    if n == 0 then []
    else FailedUpTo(results, n - 1) + (if results[n - 1].Fail? then [n - 1] else [])
  }

  /** The positions of a `results` array whose entry was rejected, ascending. */
  function FailedPositions(results: seq<Outcome>): seq<nat> {
    FailedUpTo(results, |results|)
  }

  /** The post-processed images the first `n` outcomes contribute, in order. */
  function CollectedUpTo(outs: seq<Outcome>, n: nat): seq<ImageRecord>
    requires n <= |outs|
  {
    if n == 0 then [] else CollectedUpTo(outs, n - 1) + NormalizeAll(ImagesOf(outs[n - 1]))
  }

  /**
   * `images` followed by the images of the first `n` retry calls: call `k` is
   * `generateSingle(calls[k])`, which settles to `retry[calls[k]]`.
   */
  function RetriedOnto(images: seq<ImageRecord>, retry: seq<Outcome>, calls: seq<nat>, n: nat): seq<ImageRecord>
    requires n <= |calls| && forall k :: 0 <= k < |calls| ==> calls[k] < |retry|
  {
    if n == 0 then images
    else RetriedOnto(images, retry, calls, n - 1) + NormalizeAll(ImagesOf(retry[calls[n - 1]]))
  }

  /** The `results` array `textToImage` inspects: the outcomes of the last awaited batch. */
  function LastResults(initial: seq<Outcome>): seq<Outcome> {
    if |initial| <= 4 then initial else initial[2..]
  }

  /** The arguments of the retry calls `generateSingle(index)`: rejected positions within the last batch. */
  function TextRetryCalls(initial: seq<Outcome>): seq<nat> {
    FailedPositions(LastResults(initial))
  }

  /** Every request `textToImage` sends, as the `index` argument of `generateSingle`. */
  function TextCalls(initial: seq<Outcome>): seq<nat> {
    Range(0, |initial|) + TextRetryCalls(initial)
  }

  /** The full plan including the retry round, which is awaited only when it is non-empty. */
  function TextSteps(initial: seq<Outcome>): seq<Step> {
    var retries := TextRetryCalls(initial);
    TextPlan(|initial|) + (if |retries| > 0 then DispatchEach(retries, |retries|) + [AwaitAll] else [])
  }

  /** Appending a retry round to a plan starts the retry arguments after the plan's own requests. */
  lemma DispatchedRetryRound(plan: seq<Step>, retries: seq<nat>)
    ensures Dispatched(plan + (if |retries| > 0 then DispatchEach(retries, |retries|) + [AwaitAll] else []))
      == Dispatched(plan) + retries
  {
    if |retries| > 0 {
      var round := DispatchEach(retries, |retries|);
      assert Dispatched(round + [AwaitAll]) == retries by {
        DispatchedAppend(round, [AwaitAll]);
        DispatchedSingle(AwaitAll);
        DispatchedEach(retries, |retries|);
        assert retries[..|retries|] == retries;
      }
      DispatchedAppend(plan, round + [AwaitAll]);
    } else {
      assert plan + [] == plan;
    }
  }

  /** The requests the full plan starts are the initial indices followed by the retry arguments. */
  lemma TextStepsDispatchTextCalls(initial: seq<Outcome>)
    ensures Dispatched(TextSteps(initial)) == TextCalls(initial)
  {
    TextPlanDispatchesEachIndexOnce(|initial|);
    DispatchedRetryRound(TextPlan(|initial|), TextRetryCalls(initial));
  }

  /** The request `generateSingle(index)` sends. */
  function TextRequestFor(prompt: string, index: nat, count: nat, aspectRatio: string, taskId: string, token: Option<string>): TextRequest {
    TextRequest(GenerateVariantPrompt(prompt, index, count), 1, aspectRatio, taskId, count, aspectRatio, token.Some?)
  }

  function TextRequests(prompt: string, calls: seq<nat>, count: nat, aspectRatio: string, taskId: string, token: Option<string>): (r: seq<TextRequest>)
    ensures |r| == |calls|
    ensures forall k :: 0 <= k < |r| ==> r[k] == TextRequestFor(prompt, calls[k], count, aspectRatio, taskId, token)
  {
    seq(|calls|, k requires 0 <= k < |calls| => TextRequestFor(prompt, calls[k], count, aspectRatio, taskId, token))
  }

  /** The images `textToImage` accumulates: initial round in index order, then the retries. */
  function TextImages(initial: seq<Outcome>, retry: seq<Outcome>): seq<ImageRecord>
    requires |retry| == |initial|
  {
    var calls := TextRetryCalls(initial);
    RetriedOnto(CollectedUpTo(initial, |initial|), retry, calls, |calls|)
  }

  /** The progress calls text to image has made after collecting the first `n` images: one per image. */
  function ProgressUpTo(images: seq<ImageRecord>, n: nat, total: nat): seq<Progress>
    requires n <= |images|
  {
    if n == 0 then [] else ProgressUpTo(images, n - 1, total) + [Progress(Processing, images[..n], n, None, total)]
  }

  function StreamedProgress(images: seq<ImageRecord>, total: nat): seq<Progress> {
    ProgressUpTo(images, |images|, total)
  }

  lemma {:induction false} ProgressUpToPrefix(images: seq<ImageRecord>, more: seq<ImageRecord>, n: nat, total: nat)
    requires n <= |images|
    ensures ProgressUpTo(images + more, n, total) == ProgressUpTo(images, n, total)
  {
    if n > 0 {
      ProgressUpToPrefix(images, more, n - 1, total);
      assert (images + more)[..n] == images[..n];
    }
  }

  lemma StreamedProgressSnoc(images: seq<ImageRecord>, img: ImageRecord, total: nat)
    ensures StreamedProgress(images + [img], total)
      == StreamedProgress(images, total) + [Progress(Processing, images + [img], |images| + 1, None, total)]
  {
    ProgressUpToPrefix(images, [img], |images|, total);
    assert (images + [img])[..|images| + 1] == images + [img];
  }

  /** The `k`-th progress call of text to image reports the first `k + 1` images as completed. */
  lemma {:induction false} StreamedProgressReports(images: seq<ImageRecord>, n: nat, total: nat)
    requires n <= |images|
    ensures |ProgressUpTo(images, n, total)| == n
    ensures forall k :: 0 <= k < n ==>
      ProgressUpTo(images, n, total)[k] == Progress(Processing, images[..k + 1], k + 1, None, total)
  {
    if n > 0 {
      StreamedProgressReports(images, n - 1, total);
    }
  }

  // ---------------------------------------------------------------- text to image: properties

  /**
   * Which positions are retried: with at most four images exactly the failed indices; with more,
   * position `p` is retried exactly when request `p + 2` of the second batch failed, so a
   * failure of request 0 or 1 is never retried and a retry runs with the prompt of position `p`.
   */
  lemma TextRetryTargets(initial: seq<Outcome>)
    ensures |initial| <= 4 ==> forall p: nat :: p in TextRetryCalls(initial) <==> p < |initial| && initial[p].Fail?
    ensures |initial| > 4 ==> forall p: nat :: p in TextRetryCalls(initial) <==> p + 2 < |initial| && initial[p + 2].Fail?
  {
    var r := TextRetryCalls(initial);
    if |initial| > 4 {
      var last := initial[2..];
      forall p: nat | p in r ensures p + 2 < |initial| && initial[p + 2].Fail? {
        assert last[p] == initial[p + 2];
      }
      forall p: nat | p + 2 < |initial| && initial[p + 2].Fail? ensures p in r {
        assert last[p] == initial[p + 2];
      }
    }
  }

  /** With more than four images the retry round does not depend on what requests 0 and 1 yield. */
  lemma TextRetryIgnoresFirstBatch(initial: seq<Outcome>, o0: Outcome, o1: Outcome)
    requires |initial| > 4
    ensures TextRetryCalls(initial) == TextRetryCalls(initial[0 := o0][1 := o1])
  {
    assert initial[2..] == initial[0 := o0][1 := o1][2..];
  }

  /** Example run (the general fact is `TextRetryIgnoresFirstBatch`): with five images a failure of request 0 is never retried. */
  lemma TextFirstBatchFailureNotRetried(img: ImageRecord)
    ensures TextRetryCalls([Fail, Ok([img]), Ok([img]), Ok([img]), Ok([img])]) == []
  {
    var ok := Ok([img]);
    var last := LastResults([Fail, ok, ok, ok, ok]);
    assert last == [ok, ok, ok];
    assert FailedUpTo(last, 1) == [];
    assert FailedUpTo(last, 2) == [];
  }

  /** A concrete run: with five images, a failure of request 2 is retried as `generateSingle(0)`. */
  lemma TextRetryOfRequestTwo(img: ImageRecord)
    ensures TextRetryCalls([Ok([img]), Ok([img]), Fail, Ok([img]), Ok([img])]) == [0]
  {
    var ok := Ok([img]);
    var last := LastResults([ok, ok, Fail, ok, ok]);
    assert last == [Fail, ok, ok];
    assert FailedUpTo(last, 0) == [];
    assert FailedUpTo(last, 1) == [0];
    assert FailedUpTo(last, 2) == [0];
  }

  /**
   * Continuing that run: request 2 was sent with the prompt plus two spaces, while its retry
   * `generateSingle(0)` sends the unmodified prompt of request 0.
   */
  lemma TextRetryUsesPositionPrompt(prompt: string, size: string, taskId: string, token: Option<string>)
    ensures TextRequestFor(prompt, 2, 5, size, taskId, token).prompt == prompt + "  "
    ensures TextRequestFor(prompt, 0, 5, size, taskId, token).prompt == prompt
  {
    assert Spaces(2) == "  ";
  }

  predicate AtMostOneImageEach(outs: seq<Outcome>) {
    forall k :: 0 <= k < |outs| ==> |ImagesOf(outs[k])| <= 1
  }

  /** Each response with at most one image: only the non-rejected ones contribute, one image at most. */
  lemma {:induction false} CollectedBound(outs: seq<Outcome>, n: nat)
    requires n <= |outs| && AtMostOneImageEach(outs)
    ensures |CollectedUpTo(outs, n)| + |FailedUpTo(outs, n)| <= n
  {
    if n > 0 {
      CollectedBound(outs, n - 1);
    }
  }

  lemma {:induction false} RetriedBound(images: seq<ImageRecord>, retry: seq<Outcome>, calls: seq<nat>, n: nat)
    requires n <= |calls| && forall k :: 0 <= k < |calls| ==> calls[k] < |retry|
    requires AtMostOneImageEach(retry)
    ensures |RetriedOnto(images, retry, calls, n)| <= |images| + n
  {
    if n > 0 {
      RetriedBound(images, retry, calls, n - 1);
    }
  }

  /** The number of rejected results among the first `n`. */
  function FailedCount(results: seq<Outcome>, n: nat): nat
    requires n <= |results|
  {
    if n == 0 then 0 else FailedCount(results, n - 1) + (if results[n - 1].Fail? then 1 else 0)
  }

  lemma {:induction false} FailedCountIsLength(results: seq<Outcome>, n: nat)
    requires n <= |results|
    ensures |FailedUpTo(results, n)| == FailedCount(results, n)
  {
    if n > 0 {
      FailedCountIsLength(results, n - 1);
    }
  }

  lemma {:induction false} FailedCountShift(results: seq<Outcome>, d: nat, m: nat)
    requires d + m <= |results|
    ensures FailedCount(results[d..], m) <= FailedCount(results, d + m)
  {
    if m > 0 {
      FailedCountShift(results, d, m - 1);
      assert results[d..][m - 1] == results[d + m - 1];
    }
  }

  /** Dropping the first `d` results cannot add failures. */
  lemma FailedShiftBound(results: seq<Outcome>, d: nat, m: nat)
    requires d + m <= |results|
    ensures |FailedUpTo(results[d..], m)| <= |FailedUpTo(results, d + m)|
  {
    FailedCountShift(results, d, m);
    FailedCountIsLength(results[d..], m);
    FailedCountIsLength(results, d + m);
  }

  /** No more retries than failed initial requests. */
  lemma TextRetryCountBound(initial: seq<Outcome>)
    ensures |TextRetryCalls(initial)| <= |FailedPositions(initial)|
  {
    if |initial| > 4 {
      FailedShiftBound(initial, 2, |initial| - 2);
    }
  }

  /**
   * When every response carries at most one image, text to image never reports more successes
   * than requested, so `failed_count` is never negative.
   */
  lemma TextSuccessBounded(initial: seq<Outcome>, retry: seq<Outcome>)
    requires |retry| == |initial|
    requires AtMostOneImageEach(initial) && AtMostOneImageEach(retry)
    ensures |TextImages(initial, retry)| <= |initial|
  {
    var calls := TextRetryCalls(initial);
    CollectedBound(initial, |initial|);
    RetriedBound(CollectedUpTo(initial, |initial|), retry, calls, |calls|);
    TextRetryCountBound(initial);
  }

  /** A concrete run: one request answered with two images makes `failed_count` equal -1. */
  lemma TextFailedCountCanBeNegative(a: ImageRecord, b: ImageRecord)
    ensures |TextImages([Ok([a, b])], [Fail])| == 2
  {
    var initial := [Ok([a, b])];
    assert FailedUpTo(initial, 0) == [];
    assert TextRetryCalls(initial) == [];
    assert CollectedUpTo(initial, 0) == [];
  }

  // ---------------------------------------------------------------- text to image: the method

  /** The part of `generateSingle` that handles a settled response: push and report each image. */
  method ReceiveText(allImages: seq<ImageRecord>, progress: seq<Progress>, outcome: Outcome, count: nat)
    returns (images': seq<ImageRecord>, progress': seq<Progress>)
    requires progress == StreamedProgress(allImages, count)
    ensures images' == allImages + NormalizeAll(ImagesOf(outcome))
    ensures progress' == StreamedProgress(images', count)
  {
    images', progress' := allImages, progress;
    if outcome.Ok? && |outcome.images| > 0 {
      var k := 0;
      while k < |outcome.images|
        invariant 0 <= k <= |outcome.images|
        invariant images' == allImages + NormalizeAll(outcome.images)[..k]
        invariant progress' == StreamedProgress(images', count)
      {
        var img := Normalize(outcome.images[k]);
        PrefixSnoc(NormalizeAll(outcome.images), k);
        StreamedProgressSnoc(images', img, count);
        images' := images' + [img];
        progress' := progress' + [Progress(Processing, images', |images'|, None, count)];
        k := k + 1;
      }
      assert NormalizeAll(outcome.images)[..k] == NormalizeAll(outcome.images);
    }
  }

  /** Requests `lo .. hi - 1` of the initial round: `generateSingle(i)` for each, one after the other. */
  method SendTextRange(images: seq<ImageRecord>, progress: seq<Progress>, lo: nat, hi: nat, initial: seq<Outcome>)
    returns (images': seq<ImageRecord>, progress': seq<Progress>, sent: seq<Step>)
    requires lo <= hi <= |initial|
    requires images == CollectedUpTo(initial, lo) && progress == StreamedProgress(images, |initial|)
    ensures images' == CollectedUpTo(initial, hi) && progress' == StreamedProgress(images', |initial|)
    ensures sent == DispatchRange(lo, hi)
  {
    images', progress', sent := images, progress, [];
    var i := lo;
    while i < hi
      invariant lo <= i <= hi
      invariant images' == CollectedUpTo(initial, i) && progress' == StreamedProgress(images', |initial|)
      invariant sent == DispatchRange(lo, i)
    {
      sent := sent + [Dispatch(i)];
      images', progress' := ReceiveText(images', progress', initial[i], |initial|);
      i := i + 1;
    }
  }

  /** The initial round: the batches of `TextPlan`, and the `results` of the last batch. */
  method TextInitialRound(initial: seq<Outcome>)
    returns (images: seq<ImageRecord>, progress: seq<Progress>, steps: seq<Step>, results: seq<Outcome>)
    ensures images == CollectedUpTo(initial, |initial|) && progress == StreamedProgress(images, |initial|)
    ensures steps == TextPlan(|initial|)
    ensures results == LastResults(initial)
  {
    var count := |initial|;
    if count <= 4 {
      var batch;
      images, progress, batch := SendTextRange([], [], 0, count, initial);
      steps := batch + [AwaitAll];
      results := initial;
    } else {
      var batch1, batch2;
      images, progress, batch1 := SendTextRange([], [], 0, 2, initial);
      images, progress, batch2 := SendTextRange(images, progress, 2, count, initial);
      steps := batch1 + [AwaitAll] + batch2 + [AwaitAll];
      results := initial[2..];
    }
  }

  /** `results.map(...).filter(...)`: the rejected positions of the awaited batch. */
  method FailedIndicesOf(results: seq<Outcome>) returns (failed: seq<nat>)
    ensures failed == FailedPositions(results)
  {
    failed := [];
    var p := 0;
    while p < |results|
      invariant 0 <= p <= |results|
      invariant failed == FailedUpTo(results, p)
    {
      if results[p].Fail? {
        failed := failed + [p];
      }
      p := p + 1;
    }
  }

  /** One more retry call extends the retried images and the dispatched steps by that call. */
  lemma RetriedOntoStep(images: seq<ImageRecord>, retry: seq<Outcome>, calls: seq<nat>, j: nat)
    requires j < |calls| && forall k :: 0 <= k < |calls| ==> calls[k] < |retry|
    ensures calls[j] < |retry|
    ensures RetriedOnto(images, retry, calls, j + 1) ==
      RetriedOnto(images, retry, calls, j) + NormalizeAll(ImagesOf(retry[calls[j]]))
    ensures DispatchEach(calls, j + 1) == DispatchEach(calls, j) + [Dispatch(calls[j])]
  {
  }

  /** The retry round: `generateSingle(index)` once more for each failed position, failures swallowed. */
  method TextRetryRound(images: seq<ImageRecord>, progress: seq<Progress>, failedIndices: seq<nat>,
                        retry: seq<Outcome>, count: nat)
    returns (images': seq<ImageRecord>, progress': seq<Progress>, steps: seq<Step>)
    requires forall k :: 0 <= k < |failedIndices| ==> failedIndices[k] < |retry|
    requires progress == StreamedProgress(images, count)
    ensures images' == RetriedOnto(images, retry, failedIndices, |failedIndices|)
    ensures progress' == StreamedProgress(images', count)
    ensures steps == if |failedIndices| > 0 then DispatchEach(failedIndices, |failedIndices|) + [AwaitAll] else []
  {
    images', progress', steps := images, progress, [];
    if |failedIndices| == 0 {
      return;
    }
    var j := 0;
    while j < |failedIndices|
      invariant 0 <= j <= |failedIndices|
      invariant images' == RetriedOnto(images, retry, failedIndices, j)
      invariant progress' == StreamedProgress(images', count)
      invariant steps == DispatchEach(failedIndices, j)
    {
      var index := failedIndices[j];
      RetriedOntoStep(images, retry, failedIndices, j);
      steps := steps + [Dispatch(index)];
      images', progress' := ReceiveText(images', progress', retry[index], count);
      j := j + 1;
    }
    steps := steps + [AwaitAll];
  }

  /**
   * `textToImage`: runs the batches, retries the failed positions of the last batch once,
   * counts, and requests a refund when images are missing.
   */
  method TextToImageRun(prompt: string, count: nat, aspectRatio: string, taskId: string, token: Option<string>,
                        initial: seq<Outcome>, retry: seq<Outcome>)
    returns (result: GenerationResult, steps: seq<Step>, requests: seq<TextRequest>,
             progress: seq<Progress>, refund: Option<RefundRequest>)
    requires |initial| == count && |retry| == count
    ensures steps == TextSteps(initial)
    ensures requests == TextRequests(prompt, TextCalls(initial), count, aspectRatio, taskId, token)
    ensures result.images == TextImages(initial, retry) && result.taskId == taskId
    ensures result.successCount == |result.images| && result.failedCount == count - result.successCount
    ensures progress == StreamedProgress(result.images, count)
    ensures refund == RefundFor(taskId, count, |result.images|, "text-to-image", token)
  {
    var allImages, planSteps, results;
    allImages, progress, planSteps, results := TextInitialRound(initial);
    var failedIndices := FailedIndicesOf(results);
    var retrySteps;
    allImages, progress, retrySteps := TextRetryRound(allImages, progress, failedIndices, retry, count);
    steps := planSteps + retrySteps;

    var successCount := |allImages|;
    var failedCount := count - successCount;
    refund := None;
    if failedCount > 0 && Truthy(token) {
      refund := Some(RefundRequest(taskId, NatToString(count), NatToString(successCount), "text-to-image"));
    }
    result := GenerationResult(allImages, taskId, successCount, failedCount);
    // the body of every request follows from its `generateSingle` argument
    TextStepsDispatchTextCalls(initial);
    requests := TextRequests(prompt, Dispatched(steps), count, aspectRatio, taskId, token);
  }

  // ---------------------------------------------------------------- image to image

  /** At most the first three reference images are used. */
  function SelectedReferences(refs: seq<File>): (r: seq<File>)
    ensures |r| <= 3 && |r| <= |refs| && r == refs[..|r|]
    ensures |refs| <= 3 ==> r == refs
  {
    if |refs| <= 3 then refs else refs[..3]
  }

  /** A slot succeeds when either of its two attempts delivers images. */
  predicate SlotSucceeded(a: Outcome, b: Outcome) {
    Delivered(a) || Delivered(b)
  }

  /** The images slot contributes: those of the first attempt that delivered any. */
  function SlotImages(a: Outcome, b: Outcome): seq<ImageRecord> {
    if Delivered(a) then a.images else if Delivered(b) then b.images else []
  }

  /** The number of successful slots among the first `n`. */
  function SucceededSlots(first: seq<Outcome>, second: seq<Outcome>, n: nat): (r: nat)
    requires n <= |first| && n <= |second|
    ensures r <= n
  {
    if n == 0 then 0
    else SucceededSlots(first, second, n - 1) + (if SlotSucceeded(first[n - 1], second[n - 1]) then 1 else 0)
  }

  /** The requests sent for slot `k`: one when its first attempt delivers, a retry otherwise. */
  function SlotAttempts(firstOutcome: Outcome, k: nat): seq<nat> {
    if Delivered(firstOutcome) then [k] else [k, k]
  }

  /** The slot of every request sent, in order: a slot whose first attempt fails is sent twice. */
  function EditAttempts(first: seq<Outcome>, n: nat): seq<nat>
    requires n <= |first|
  {
    if n == 0 then [] else EditAttempts(first, n - 1) + SlotAttempts(first[n - 1], n - 1)
  }

  /** How many of the requests in `sent` are for slot `i`. */
  function RequestsFor(sent: seq<nat>, i: nat): nat {
    if sent == [] then 0 else RequestsFor(sent[..|sent| - 1], i) + (if sent[|sent| - 1] == i then 1 else 0)
  }

  lemma {:induction false} RequestsForAppend(a: seq<nat>, b: seq<nat>, i: nat)
    ensures RequestsFor(a + b, i) == RequestsFor(a, i) + RequestsFor(b, i)
  {
    if b != [] {
      assert (a + b)[..|a + b| - 1] == a + b[..|b| - 1];
      RequestsForAppend(a, b[..|b| - 1], i);
    } else {
      assert a + b == a;
    }
  }

  /** Slot `i` is requested by the first `n` slots as often as by the first `n - 1` and by slot `n - 1`. */
  lemma EditAttemptsStep(first: seq<Outcome>, n: nat, i: nat)
    requires 0 < n <= |first|
    ensures RequestsFor(EditAttempts(first, n), i) ==
      RequestsFor(EditAttempts(first, n - 1), i) + RequestsFor(SlotAttempts(first[n - 1], n - 1), i)
  {
    RequestsForAppend(EditAttempts(first, n - 1), SlotAttempts(first[n - 1], n - 1), i);
  }

  /** Slot `k`'s own requests name slot `k` once or twice, and no other slot. */
  lemma SlotAttemptsFor(firstOutcome: Outcome, k: nat, i: nat)
    ensures RequestsFor(SlotAttempts(firstOutcome, k), i) == (if i != k then 0 else if Delivered(firstOutcome) then 1 else 2)
  {
    var once := if k == i then 1 else 0;
    assert RequestsFor([k], i) == once by {
      assert [k][..0] == [];
    }
    if !Delivered(firstOutcome) {
      assert [k, k][..1] == [k];
      assert RequestsFor([k, k], i) == RequestsFor([k], i) + once;
    }
  }

  /** No slot past the first `n` is requested by them. */
  lemma {:induction false} EditAttemptsUnsent(first: seq<Outcome>, n: nat, i: nat)
    requires n <= |first| && i >= n
    ensures RequestsFor(EditAttempts(first, n), i) == 0
  {
    if n > 0 {
      EditAttemptsUnsent(first, n - 1, i);
      EditAttemptsStep(first, n, i);
      SlotAttemptsFor(first[n - 1], n - 1, i);
    }
  }

  /** Each slot is attempted once when its first attempt delivers and exactly twice otherwise. */
  lemma {:induction false} EditAttemptsPerSlot(first: seq<Outcome>, n: nat, i: nat)
    requires n <= |first|
    ensures i < n ==> RequestsFor(EditAttempts(first, n), i) == (if Delivered(first[i]) then 1 else 2)
    ensures i >= n ==> RequestsFor(EditAttempts(first, n), i) == 0
  {
    if i >= n {
      EditAttemptsUnsent(first, n, i);
    } else {
      EditAttemptsSent(first, n, i);
    }
  }

  lemma {:induction false} EditAttemptsSent(first: seq<Outcome>, n: nat, i: nat)
    requires i < n <= |first|
    ensures RequestsFor(EditAttempts(first, n), i) == (if Delivered(first[i]) then 1 else 2)
  {
    EditAttemptsStep(first, n, i);
    SlotAttemptsFor(first[n - 1], n - 1, i);
    if i == n - 1 {
      EditAttemptsUnsent(first, n - 1, i);
    } else {
      EditAttemptsSent(first, n - 1, i);
    }
  }

  /** The request an attempt of `generateSingle` posts: the same form for every slot and attempt. */
  function EditRequestFor(prompt: string, taskId: string, count: nat, refs: seq<File>, aspectRatio: string, token: Option<string>): EditRequest {
    EditRequest(prompt, taskId, count, SelectedReferences(refs), aspectRatio, token.Some?)
  }

  /** What `imageToImage` has accumulated: `allImages`, the two counters, progress calls and posted requests. */
  datatype EditState = EditState(images: seq<ImageRecord>, completed: nat, failed: nat,
                                 progress: seq<Progress>, requests: seq<EditRequest>)

  /**
   * The state once slots `0 .. n-1` have settled, in order: slot `i` posts `request` once, or
   * twice when its first attempt delivers nothing, adds the images of the attempt that
   * delivered, increments one counter and makes one progress call (with `failed` only on failure).
   */
  function EditAfter(first: seq<Outcome>, second: seq<Outcome>, n: nat, request: EditRequest, count: nat): (st: EditState)
    requires n <= |first| && n <= |second|
    ensures |st.progress| == n
  {
    if n == 0 then EditState([], 0, 0, [], [])
    else SettleSlot(EditAfter(first, second, n - 1, request, count), first[n - 1], second[n - 1], request, count)
  }

  /**
   * One slot settling on `prev`: `request` posted once, or twice when the first attempt `a`
   * delivers nothing; the images of the attempt that delivered appended; one counter
   * incremented; one progress call made (with `failed` only on failure).
   */
  function SettleSlot(prev: EditState, a: Outcome, b: Outcome, request: EditRequest, count: nat): (st: EditState)
    ensures |st.progress| == |prev.progress| + 1
  {
    var ok := SlotSucceeded(a, b);
    var images := prev.images + NormalizeAll(SlotImages(a, b));
    var completed := prev.completed + (if ok then 1 else 0);
    var failed := prev.failed + (if ok then 0 else 1);
    EditState(images, completed, failed,
              prev.progress + [Progress(Processing, images, completed, if ok then None else Some(failed), count)],
              if Delivered(a) then prev.requests + [request] else prev.requests + [request] + [request])
  }

  /**
   * The counters agree with the slots: `completedCount` is the number of slots that succeeded
   * and every slot is counted exactly once.
   */
  lemma {:induction false} EditAfterCounts(first: seq<Outcome>, second: seq<Outcome>, n: nat, request: EditRequest, count: nat)
    requires n <= |first| && n <= |second|
    ensures EditAfter(first, second, n, request, count).completed == SucceededSlots(first, second, n)
    ensures EditAfter(first, second, n, request, count).completed + EditAfter(first, second, n, request, count).failed == n
  {
    EditAfterCompleted(first, second, n, request, count);
    EditAfterSettled(first, second, n, request, count);
  }

  lemma {:induction false} EditAfterCompleted(first: seq<Outcome>, second: seq<Outcome>, n: nat, request: EditRequest, count: nat)
    requires n <= |first| && n <= |second|
    ensures EditAfter(first, second, n, request, count).completed == SucceededSlots(first, second, n)
  {
    if n > 0 {
      EditAfterCompleted(first, second, n - 1, request, count);
      EditAfterCountsStep(first, second, n, request, count);
    }
  }

  lemma {:induction false} EditAfterSettled(first: seq<Outcome>, second: seq<Outcome>, n: nat, request: EditRequest, count: nat)
    requires n <= |first| && n <= |second|
    ensures EditAfter(first, second, n, request, count).completed + EditAfter(first, second, n, request, count).failed == n
  {
    if n > 0 {
      EditAfterSettled(first, second, n - 1, request, count);
      EditAfterCountsStep(first, second, n, request, count);
    }
  }

  /** Slot `n - 1` increments `completedCount` when it succeeds and `failedCount` otherwise. */
  lemma EditAfterCountsStep(first: seq<Outcome>, second: seq<Outcome>, n: nat, request: EditRequest, count: nat)
    requires 0 < n <= |first| && n <= |second|
    ensures var ok := SlotSucceeded(first[n - 1], second[n - 1]);
      var prev, st := EditAfter(first, second, n - 1, request, count), EditAfter(first, second, n, request, count);
      && st.completed == prev.completed + (if ok then 1 else 0)
      && st.failed == prev.failed + (if ok then 0 else 1)
  {
  }

  /** `n` copies of `x`. */
  function Repeated<T>(x: T, n: nat): (r: seq<T>)
    ensures |r| == n && forall k :: 0 <= k < n ==> r[k] == x
  {
    if n == 0 then [] else Repeated(x, n - 1) + [x]
  }

  lemma {:induction false} RepeatedAppend<T>(x: T, m: nat, n: nat)
    ensures Repeated(x, m) + Repeated(x, n) == Repeated(x, m + n)
  {
    if n > 0 {
      RepeatedAppend(x, m, n - 1);
      assert Repeated(x, m) + Repeated(x, n) == Repeated(x, m) + Repeated(x, n - 1) + [x];
    }
  }

  /** One request per attempt, all of them the same form. */
  lemma {:induction false} EditAfterRequests(first: seq<Outcome>, second: seq<Outcome>, n: nat, request: EditRequest, count: nat)
    requires n <= |first| && n <= |second|
    ensures EditAfter(first, second, n, request, count).requests == Repeated(request, |EditAttempts(first, n)|)
  {
    if n > 0 {
      EditAfterRequests(first, second, n - 1, request, count);
      var m, own := |EditAttempts(first, n - 1)|, |SlotAttempts(first[n - 1], n - 1)|;
      EditAfterRequestsStep(first, second, n, request, count);
      RepeatedAppend(request, m, own);
      assert |EditAttempts(first, n)| == m + own;
    }
  }

  /** Slot `n - 1` adds one request, or two when its first attempt delivers nothing. */
  lemma EditAfterRequestsStep(first: seq<Outcome>, second: seq<Outcome>, n: nat, request: EditRequest, count: nat)
    requires 0 < n <= |first| && n <= |second|
    ensures EditAfter(first, second, n, request, count).requests ==
      EditAfter(first, second, n - 1, request, count).requests + Repeated(request, |SlotAttempts(first[n - 1], n - 1)|)
  {
    assert Repeated(request, 1) == [request];
    assert Repeated(request, 2) == [request, request];
  }

  /** Slot `k`'s progress call stays as it was made while later slots settle. */
  lemma {:induction false} EditProgressStable(first: seq<Outcome>, second: seq<Outcome>, n: nat, k: nat, request: EditRequest, count: nat)
    requires k < n <= |first| && n <= |second|
    ensures EditAfter(first, second, n, request, count).progress[k] == EditAfter(first, second, k + 1, request, count).progress[k]
  {
    if k < n - 1 {
      EditProgressStable(first, second, n - 1, k, request, count);
      EditProgressKept(first, second, n, k, request, count);
    }
  }

  /** Settling slot `n - 1` leaves the earlier progress calls in place. */
  lemma EditProgressKept(first: seq<Outcome>, second: seq<Outcome>, n: nat, k: nat, request: EditRequest, count: nat)
    requires k < n - 1 && n <= |first| && n <= |second|
    ensures EditAfter(first, second, n, request, count).progress[k] == EditAfter(first, second, n - 1, request, count).progress[k]
  {
    var prev := EditAfter(first, second, n - 1, request, count);
    var st := SettleSlot(prev, first[n - 1], second[n - 1], request, count);
    assert st.progress[k] == prev.progress[k];
  }

  /** Images are only ever appended: the list after `m` slots is a prefix of the list after `n`. */
  lemma {:induction false} EditImagesGrow(first: seq<Outcome>, second: seq<Outcome>, m: nat, n: nat, request: EditRequest, count: nat)
    requires m <= n <= |first| && n <= |second|
    ensures EditAfter(first, second, m, request, count).images <= EditAfter(first, second, n, request, count).images
    decreases n - m
  {
    if m < n {
      EditImagesGrow(first, second, m, n - 1, request, count);
      var a, b, c := EditAfter(first, second, m, request, count).images,
                     EditAfter(first, second, n - 1, request, count).images,
                     EditAfter(first, second, n, request, count).images;
      assert c[..|b|] == b;
      assert c[..|a|] == b[..|a|];
    }
  }

  /**
   * Progress call `k` is made when slot `k` settles: it carries `failed` exactly when that slot
   * failed, reports as `completed` the successes among slots `0 .. k`, and its image list is a
   * prefix of the final one.
   */
  lemma EditProgressReports(first: seq<Outcome>, second: seq<Outcome>, n: nat, k: nat, request: EditRequest, count: nat)
    requires k < n <= |first| && n <= |second|
    ensures var p := EditAfter(first, second, n, request, count).progress[k];
      && (p.failed.None? <==> SlotSucceeded(first[k], second[k]))
      && p.completed == SucceededSlots(first, second, k + 1)
      && p.images <= EditAfter(first, second, n, request, count).images
  {
    EditProgressStable(first, second, n, k, request, count);
    EditAfterCounts(first, second, k, request, count);
    EditImagesGrow(first, second, k + 1, n, request, count);
  }

  method AppendImages(allImages: seq<ImageRecord>, returned: seq<ImageRecord>) returns (r: seq<ImageRecord>)
    ensures r == allImages + NormalizeAll(returned)
  {
    r := allImages;
    var k := 0;
    while k < |returned|
      invariant 0 <= k <= |returned|
      invariant r == allImages + NormalizeAll(returned)[..k]
    {
      PrefixSnoc(NormalizeAll(returned), k);
      r := r + [Normalize(returned[k])];
      k := k + 1;
    }
    assert NormalizeAll(returned)[..k] == NormalizeAll(returned);
  }

  /** The three ways a slot settles: the first attempt delivers, the retry delivers, or neither. */
  lemma SettleSlotCases(prev: EditState, a: Outcome, b: Outcome, request: EditRequest, count: nat)
    ensures Delivered(a) ==> var images := prev.images + NormalizeAll(a.images);
      SettleSlot(prev, a, b, request, count) == EditState(images, prev.completed + 1, prev.failed,
        prev.progress + [Progress(Processing, images, prev.completed + 1, None, count)], prev.requests + [request])
    ensures !Delivered(a) && Delivered(b) ==> var images := prev.images + NormalizeAll(b.images);
      SettleSlot(prev, a, b, request, count) == EditState(images, prev.completed + 1, prev.failed,
        prev.progress + [Progress(Processing, images, prev.completed + 1, None, count)], prev.requests + [request] + [request])
    ensures !Delivered(a) && !Delivered(b) ==>
      SettleSlot(prev, a, b, request, count) == EditState(prev.images, prev.completed, prev.failed + 1,
        prev.progress + [Progress(Processing, prev.images, prev.completed, Some(prev.failed + 1), count)],
        prev.requests + [request] + [request])
  {
    if !Delivered(a) && !Delivered(b) {
      assert prev.images + NormalizeAll([]) == prev.images;
    }
  }

  /**
   * `generateSingle(index)` of image to image: the first attempt, a retry when it rejects or
   * returns no image, exactly one of `completedCount`/`failedCount` incremented, one progress call.
   */
  method RunSlot(st: EditState, a: Outcome, b: Outcome, request: EditRequest, count: nat)
    returns (st': EditState)
    ensures st' == SettleSlot(st, a, b, request, count)
  {
    SettleSlotCases(st, a, b, request, count);
    var images, completed, failed, progress := st.images, st.completed, st.failed, st.progress;
    var requests := st.requests + [request];
    if Delivered(a) {
      images := AppendImages(images, a.images);
      completed := completed + 1;
      progress := progress + [Progress(Processing, images, completed, None, count)];
    } else {
      // retried once after the 2 s back-off
      requests := requests + [request];
      if Delivered(b) {
        images := AppendImages(images, b.images);
        completed := completed + 1;
        progress := progress + [Progress(Processing, images, completed, None, count)];
      } else {
        failed := failed + 1;
        progress := progress + [Progress(Processing, images, completed, Some(failed), count)];
      }
    }
    st' := EditState(images, completed, failed, progress, requests);
  }

  /** Starts slots `lo .. hi-1` one after the other; each settles before the next is recorded. */
  method RunSlots(st: EditState, lo: nat, hi: nat, first: seq<Outcome>, second: seq<Outcome>, request: EditRequest)
    returns (st': EditState, sent: seq<Step>)
    requires lo <= hi <= |first| == |second|
    requires st == EditAfter(first, second, lo, request, |first|)
    ensures st' == EditAfter(first, second, hi, request, |first|)
    ensures sent == DispatchRange(lo, hi)
  {
    st', sent := st, [];
    var i := lo;
    while i < hi
      invariant lo <= i <= hi
      invariant st' == EditAfter(first, second, i, request, |first|)
      invariant sent == DispatchRange(lo, i)
    {
      sent := sent + [Dispatch(i)];
      st' := RunSlot(st', first[i], second[i], request, |first|);
      i := i + 1;
    }
  }

  /**
   * `imageToImage`: at most three references, one copy list per image, per-slot retry, the
   * pacing plan, counting and the refund request.
   */
  method ImageToImageRun(prompt: string, refs: seq<File>, count: nat, aspectRatio: string, taskId: string,
                         token: Option<string>, first: seq<Outcome>, second: seq<Outcome>)
    returns (result: GenerationResult, copies: seq<seq<File>>, steps: seq<Step>, requests: seq<EditRequest>,
             progress: seq<Progress>, refund: Option<RefundRequest>)
    requires |first| == count && |second| == count
    ensures |copies| == count && forall i :: 0 <= i < count ==> copies[i] == SelectedReferences(refs)
    ensures steps == EditPlan(count)
    ensures var st := EditAfter(first, second, count, EditRequestFor(prompt, taskId, count, refs, aspectRatio, token), count);
      && result == GenerationResult(st.images, taskId, st.completed, st.failed)
      && requests == st.requests && progress == st.progress
    ensures result.failedCount == count - result.successCount
    ensures refund == RefundFor(taskId, count, result.successCount, "image-to-image", token)
  {
    var selected := SelectedReferences(refs);
    copies := [];
    var c := 0;
    while c < count
      invariant 0 <= c <= count && |copies| == c
      invariant forall i :: 0 <= i < c ==> copies[i] == selected
    {
      copies := copies + [selected];
      c := c + 1;
    }

    var request := EditRequestFor(prompt, taskId, count, refs, aspectRatio, token);
    var st := EditState([], 0, 0, [], []);
    if count <= 2 {
      var batch;
      st, batch := RunSlots(st, 0, count, first, second, request);
      steps := batch + [AwaitAll];
    } else {
      var batch1, batch2;
      st, batch1 := RunSlots(st, 0, 2, first, second, request);
      st, batch2 := RunSlots(st, 2, count, first, second, request);
      steps := batch1 + [Wait(6000)] + batch2 + [AwaitAll];
    }
    EditAfterCounts(first, second, count, request, count);

    refund := None;
    if st.failed > 0 && Truthy(token) {
      refund := Some(RefundRequest(taskId, NatToString(count), NatToString(st.completed), "image-to-image"));
    }
    result := GenerationResult(st.images, taskId, st.completed, st.failed);
    requests, progress := st.requests, st.progress;
  }

  /** A refund follows image to image exactly when some slot failed both attempts and a token is stored. */
  lemma EditRefundIffSlotFailed(first: seq<Outcome>, second: seq<Outcome>, count: nat, taskId: string, token: Option<string>)
    requires |first| == count && |second| == count
    ensures RefundFor(taskId, count, SucceededSlots(first, second, count), "image-to-image", token).Some? <==>
      (exists i :: 0 <= i < count && !SlotSucceeded(first[i], second[i])) && Truthy(token)
  {
    SucceededAllIff(first, second, count);
  }

  lemma {:induction false} SucceededAllIff(first: seq<Outcome>, second: seq<Outcome>, n: nat)
    requires n <= |first| && n <= |second|
    ensures SucceededSlots(first, second, n) == n <==> forall i :: 0 <= i < n ==> SlotSucceeded(first[i], second[i])
  {
    if n > 0 {
      SucceededAllIff(first, second, n - 1);
    }
  }

  /** A concrete run: a response without images counts as a failure even though it was not rejected. */
  lemma EmptyResponseIsFailure()
    ensures SucceededSlots([Ok([])], [Ok([])], 1) == 0
    ensures RefundFor("t", 1, 0, "image-to-image", Some("token")).Some?
  {
    assert !SlotSucceeded(Ok([]), Ok([]));
  }

  // ---------------------------------------------------------------- series and dispatch

  const GenerateImageEndpoint: string := "/run/generate_image/google_gemini_image_rest"
  const EditImageEndpoint: string := "/run/edit_image/google_gemini_image_rest"

  /** A series request: one call in `conversation` mode, with every uploaded file (no limit of three). */
  datatype ConversationRequest = ConversationRequest(
    endpoint: string, prompt: string, taskId: string, aspectRatio: string, images: seq<File>, requireAuth: bool)

  /** The `images` field of a conversation answer: falsy, an array, or a truthy value that is not an array. */
  datatype ImagesField = NoImages | ImageList(items: seq<ImageRecord>) | NotAList

  /** What the single conversation request settles to. */
  datatype ConversationOutcome = ConversationFail | ConversationOk(images: ImagesField)

  /** What `generate` resolves to, or `Rejected` when its promise rejects. */
  datatype Generated = Batch(result: GenerationResult) | SeriesResult(images: Option<seq<ImageRecord>>) | Rejected

  function ConversationRequestFor(prompt: string, files: seq<File>, aspectRatio: string, taskId: string, token: Option<string>): (r: ConversationRequest)
    ensures r.images == files
    ensures r.endpoint == (if |files| > 0 then EditImageEndpoint else GenerateImageEndpoint)
  {
    ConversationRequest(if |files| > 0 then EditImageEndpoint else GenerateImageEndpoint,
                        prompt, taskId, aspectRatio, files, token.Some?)
  }

  /**
   * `conversationWithImages`/`conversationWithoutImages` and the series branch of `generate`:
   * errors propagate, image arrays are post-processed, a falsy `images` is returned as is,
   * and a truthy `images` that is not an array passes the `Array.isArray` guard untouched,
   * so the `forEach` that follows throws and `generate` rejects.
   */
  function ConversationResult(outcome: ConversationOutcome): (g: Generated)
    ensures g.Rejected? <==> outcome.ConversationFail? || outcome.images.NotAList?
    ensures outcome.ConversationOk? && outcome.images.NoImages? ==> g == SeriesResult(None)
    ensures outcome.ConversationOk? && outcome.images.ImageList? ==>
      g.SeriesResult? && g.images.Some? && |g.images.value| == |outcome.images.items| &&
      forall k :: 0 <= k < |g.images.value| ==> g.images.value[k] == Normalize(outcome.images.items[k])
  {
    match outcome
    case ConversationFail => Rejected
    case ConversationOk(NoImages) => SeriesResult(None)
    case ConversationOk(NotAList) => Rejected
    case ConversationOk(ImageList(imgs)) => SeriesResult(Some(NormalizeAll(imgs)))
  }

  /** The single progress call of series mode, made only when the result has an image list. */
  function SeriesProgress(g: Generated): (r: seq<Progress>)
    ensures |r| <= 1
    ensures |r| == 1 <==> g.SeriesResult? && g.images.Some?
    ensures |r| == 1 ==> r[0].status == Completed && r[0].completed == r[0].total == |g.images.value|
  {
    if g.SeriesResult? && g.images.Some? then
      [Progress(Completed, g.images.value, |g.images.value|, None, |g.images.value|)]
    else []
  }

  /** `generate`: detects the mode and delegates to series, text-to-image or image-to-image. */
  method Generate(prompt: string, uploaded: seq<File>, count: nat, aspectRatio: string, seriesMode: bool,
                  taskId: string, token: Option<string>,
                  initial: seq<Outcome>, retry: seq<Outcome>, first: seq<Outcome>, second: seq<Outcome>,
                  conversation: ConversationOutcome)
    returns (mode: Mode, out: Generated, progress: seq<Progress>, seriesRequest: Option<ConversationRequest>)
    requires |initial| == count && |retry| == count && |first| == count && |second| == count
    ensures mode == DetectMode(|uploaded|, seriesMode)
    ensures seriesRequest.Some? <==> mode == Series
    ensures mode == Series ==>
      seriesRequest == Some(ConversationRequestFor(prompt, uploaded, aspectRatio, taskId, token))
      && out == ConversationResult(conversation) && progress == SeriesProgress(out)
    ensures mode == TextToImage ==>
      out == Batch(GenerationResult(TextImages(initial, retry), taskId,
                                    |TextImages(initial, retry)|, count - |TextImages(initial, retry)|))
      && progress == StreamedProgress(out.result.images, count)
    ensures mode == ImageToImage ==>
      var st := EditAfter(first, second, count, EditRequestFor(prompt, taskId, count, uploaded, aspectRatio, token), count);
      out == Batch(GenerationResult(st.images, taskId, st.completed, st.failed)) && progress == st.progress
  {
    mode := DetectMode(|uploaded|, seriesMode);
    seriesRequest := None;
    if mode == Series {
      seriesRequest := Some(ConversationRequestFor(prompt, uploaded, aspectRatio, taskId, token));
      out := ConversationResult(conversation);
      progress := [];
      if out.SeriesResult? && out.images.Some? {
        // the second `delete img.description` finds the field already gone
        var imgs := out.images.value;
        progress := [Progress(Completed, imgs, |imgs|, None, |imgs|)];
      }
    } else if mode == TextToImage {
      var result, _, _, p, _ := TextToImageRun(prompt, count, aspectRatio, taskId, token, initial, retry);
      out, progress := Batch(result), p;
    } else {
      var result, _, _, _, p, _ := ImageToImageRun(prompt, uploaded, count, aspectRatio, taskId, token, first, second);
      out, progress := Batch(result), p;
    }
  }
}
