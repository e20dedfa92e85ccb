/**
 * The history view's lazy loader: each task card waits as `pending` until it scrolls into
 * view, then loads its images through the history service, with at most `maxConcurrent`
 * loads admitted at a time.
 *
 * A load is an `async` call. Up to its first `await` it runs at once; afterwards it is
 * suspended either in the admission loop (polling every 100 ms while the ceiling is
 * reached) or on the detail request. The model keeps the suspended calls as two ghost
 * multisets of card indices and resumes them through `PollTick` and `Finish`, in whatever
 * order the caller chooses.
 */
module HistoryRenderer {
  import opened Wrappers
  import opened Images

  /** The card's `data-lazy-load` attribute. */
  datatype LoadStatus = Pending | Loading | Loaded | Empty | Error

  /** A task as the lite history list returns it. */
  datatype TaskSummary = TaskSummary(
    taskId: string,
    prompt: Option<string>,
    aspectRatio: Option<string>,
    imageCount: Option<nat>,
    mode: string)

  /** The dataset of a task card and the number of placeholders in its grid. */
  datatype Card = Card(
    taskId: string,
    originalPrompt: string,
    aspectRatio: string,
    count: nat,
    seriesMode: string,
    hasReferenceImages: string,
    lazyLoad: LoadStatus,
    placeholders: nat)

  /** `task.image_count || 4`: a missing or zero count falls back to four. */
  function ImageCountOf(task: TaskSummary): (n: nat)
    ensures n >= 1
    ensures task.imageCount.Some? && task.imageCount.value != 0 ==> n == task.imageCount.value
    ensures task.imageCount.None? || task.imageCount.value == 0 ==> n == 4
  {
    if task.imageCount.Some? && task.imageCount.value != 0 then task.imageCount.value else 4
  }

  /** `createTaskCard`: the dataset derived from the task and one placeholder per image. */
  function CreateTaskCard(task: TaskSummary): (c: Card)
    ensures c.taskId == task.taskId && c.lazyLoad == Pending
    ensures c.seriesMode == "true" <==> task.mode == "conversation"
    ensures c.seriesMode == "true" || c.seriesMode == "false"
    ensures c.hasReferenceImages == "true" <==> task.mode == "image-to-image" || task.mode == "conversation"
    ensures c.hasReferenceImages == "true" || c.hasReferenceImages == "false"
    ensures c.count == c.placeholders == ImageCountOf(task)
    ensures c.originalPrompt == task.prompt.GetOr("")
    ensures c.aspectRatio == (if Truthy(task.aspectRatio) then task.aspectRatio.value else "1:1")
  {
    var count := ImageCountOf(task);
    Card(
      task.taskId,
      task.prompt.GetOr(""),
      if Truthy(task.aspectRatio) then task.aspectRatio.value else "1:1",
      count,
      if task.mode == "conversation" then "true" else "false",
      if task.mode == "image-to-image" || task.mode == "conversation" then "true" else "false",
      Pending,
      count)
  }

  /** One rendered image: its URL and its position in the task's image list. */
  datatype Tile = Tile(url: string, index: nat)

  /** The tiles `renderImages` produces for the first `n` images: images without a URL are skipped. */
  function TilesUpTo(images: seq<ImageData>, n: nat): (r: seq<Tile>)
    requires n <= |images|
    ensures |r| <= n
  {
    if n == 0 then []
    else
      var u := DisplayUrl(images[n - 1]);
      TilesUpTo(images, n - 1) + (if u == "" then [] else [Tile(u, n - 1)])
  }

  /** Every tile shows the URL of the image it stands for, and that URL is not empty. */
  lemma {:induction false} TilesShowTheirImage(images: seq<ImageData>, n: nat)
    requires n <= |images|
    ensures forall t :: t in TilesUpTo(images, n) ==> t.index < n && t.url == DisplayUrl(images[t.index]) && t.url != ""
  {
    if n > 0 {
      TilesShowTheirImage(images, n - 1);
      var prev := TilesUpTo(images, n - 1);
      forall t | t in TilesUpTo(images, n) ensures t.index < n && t.url == DisplayUrl(images[t.index]) && t.url != "" {
        if t !in prev {
          assert t == Tile(DisplayUrl(images[n - 1]), n - 1);
        }
      }
    }
  }

  /** Each of the first `n` images' tiles stands for one of the first `n` images. */
  lemma {:induction false} TileIndexBelow(images: seq<ImageData>, n: nat, i: nat)
    requires n <= |images| && i < |TilesUpTo(images, n)|
    ensures TilesUpTo(images, n)[i].index < n
  {
    var prev, r := TilesUpTo(images, n - 1), TilesUpTo(images, n);
    var u := DisplayUrl(images[n - 1]);
    assert r == prev + (if u == "" then [] else [Tile(u, n - 1)]);
    if i < |prev| {
      assert r[i] == prev[i];
      TileIndexBelow(images, n - 1, i);
    } else {
      assert r[i] == Tile(u, n - 1);
    }
  }

  /** The tiles keep the images' order. */
  lemma {:induction false} TilesInOrder(images: seq<ImageData>, n: nat)
    requires n <= |images|
    ensures forall i, j :: 0 <= i < j < |TilesUpTo(images, n)| ==>
      TilesUpTo(images, n)[i].index < TilesUpTo(images, n)[j].index
  {
    if n > 0 {
      TilesInOrder(images, n - 1);
      var prev, r := TilesUpTo(images, n - 1), TilesUpTo(images, n);
      forall i, j | 0 <= i < j < |r| ensures r[i].index < r[j].index {
        assert r[i] == prev[i];
        if j < |prev| {
          assert r[j] == prev[j];
        } else {
          TileIndexBelow(images, n - 1, i);
        }
      }
    }
  }

  /** Every image that has a URL is rendered. */
  lemma {:induction false} TilesComplete(images: seq<ImageData>, n: nat)
    requires n <= |images|
    ensures forall k :: 0 <= k < n && DisplayUrl(images[k]) != "" ==> Tile(DisplayUrl(images[k]), k) in TilesUpTo(images, n)
  {
    if n > 0 {
      TilesComplete(images, n - 1);
      var prev, r := TilesUpTo(images, n - 1), TilesUpTo(images, n);
      forall k | 0 <= k < n && DisplayUrl(images[k]) != "" ensures Tile(DisplayUrl(images[k]), k) in r {
        if k < n - 1 {
          assert Tile(DisplayUrl(images[k]), k) in prev;
        }
      }
    }
  }

  /** `renderImages`: the grid is cleared and refilled image by image. */
  method RenderImages(images: seq<ImageData>) returns (grid: seq<Tile>)
    ensures grid == TilesUpTo(images, |images|)
  {
    grid := [];
    var i := 0;
    while i < |images|
      invariant i <= |images|
      invariant grid == TilesUpTo(images, i)
    {
      var url := DisplayUrl(images[i]);
      if url != "" {
        grid := grid + [Tile(url, i)];
      }
      i := i + 1;
    }
  }

  /**
   * `detail.task.generated_images`: absent (or any falsy value), a JSON string with what
   * `JSON.parse` makes of it (`None` when it throws), or an array.
   */
  datatype Generated = Missing | Json(text: string, parsed: Option<seq<ImageData>>) | Items(items: seq<ImageData>)

  /** What the detail request delivered: it threw, or it returned a detail. */
  datatype Detail = Threw | Fetched(generated: Generated)

  /** JavaScript truthiness of `generated_images`: the empty string is falsy, every array truthy. */
  predicate Present(g: Generated) {
    match g
    case Missing => false
    case Json(text, _) => text != ""
    case Items(_) => true
  }

  /** The image list a present `generated_images` yields; a parse failure leaves it empty. */
  function Listed(g: Generated): (r: seq<ImageData>)
    ensures g.Items? ==> r == g.items
    ensures g.Json? && g.parsed.Some? ==> r == g.parsed.value
    ensures g.Missing? || (g.Json? && g.parsed.None?) ==> r == []
  {
    match g
    case Missing => []
    case Json(_, parsed) => parsed.GetOr([])
    case Items(items) => items
  }

  /**
   * The status a finished load writes on its card, or `None` when it writes nothing and the
   * card stays as it was (no `generated_images`, or images but no grid).
   */
  function Settled(d: Detail, hasGrid: bool): (r: Option<LoadStatus>)
    ensures r == Some(Error) <==> d.Threw?
    ensures r == Some(Loaded) <==> d.Fetched? && Present(d.generated) && |Listed(d.generated)| > 0 && hasGrid
    ensures r == Some(Empty) <==> d.Fetched? && Present(d.generated) && |Listed(d.generated)| == 0
    ensures r.None? <==> d.Fetched? && (!Present(d.generated) || (|Listed(d.generated)| > 0 && !hasGrid))
    ensures r != Some(Pending) && r != Some(Loading)
  {
    match d
    case Threw => Some(Error)
    case Fetched(g) =>
      if !Present(g) then None
      else if |Listed(g)| > 0 then (if hasGrid then Some(Loaded) else None)
      else Some(Empty)
  }

  /** A JSON string that does not parse marks the card `empty`. */
  lemma UnparsableImagesAreEmpty(text: string, hasGrid: bool)
    requires text != ""
    ensures Settled(Fetched(Json(text, None)), hasGrid) == Some(Empty)
  {
  }

  class LazyLoader {
    /** The task id of each card, in document order. */
    const taskIds: seq<string>
    /** The ceiling on concurrently admitted loads. */
    const maxConcurrent: nat

    var lazyLoad: seq<LoadStatus>
    var loadedTaskIds: set<string>
    var loadingTaskIds: set<string>
    var activeLoads: int

    /** Cards whose load waits in the admission loop. */
    ghost var polling: multiset<nat>
    /** Cards whose load was admitted and awaits its detail request. */
    ghost var inFlight: multiset<nat>

    /** The task ids of the admitted loads. */
    ghost function InFlightIds(): set<string>
      reads this
    {
      set c | c in inFlight && c < |taskIds| :: taskIds[c]
    }

    /**
     * The counter stays within `0..maxConcurrent` and counts exactly the admitted loads
     * (every admission is matched by one release); an id is marked loading only while a
     * load for it is admitted.
     */
    ghost predicate Valid()
      reads this
    {
      && |lazyLoad| == |taskIds|
      && maxConcurrent == 2
      && 0 <= activeLoads <= maxConcurrent
      && activeLoads == |inFlight|
      && (forall c :: c in polling ==> c < |taskIds|)
      && (forall c :: c in inFlight ==> c < |taskIds|)
      && loadingTaskIds <= InFlightIds()
    }

    /** The constructor's state with the rendered cards, all `pending`. */
    constructor(tasks: seq<TaskSummary>)
      ensures Valid()
      ensures |taskIds| == |tasks| && forall i :: 0 <= i < |tasks| ==> taskIds[i] == CreateTaskCard(tasks[i]).taskId
      ensures forall i :: 0 <= i < |lazyLoad| ==> lazyLoad[i] == CreateTaskCard(tasks[i]).lazyLoad
      ensures loadedTaskIds == {} && loadingTaskIds == {} && activeLoads == 0
      ensures polling == multiset{} && inFlight == multiset{}
    {
      taskIds := seq(|tasks|, i requires 0 <= i < |tasks| => tasks[i].taskId);
      maxConcurrent := 2;
      lazyLoad := seq(|tasks|, i => Pending);
      loadedTaskIds := {};
      loadingTaskIds := {};
      activeLoads := 0;
      polling := multiset{};
      inFlight := multiset{};
    }

    /** The observer's guard: a card with an id, still `pending`, neither loaded nor loading. */
    predicate ShouldLoad(c: nat)
      requires c < |taskIds| == |lazyLoad|
      reads this
    {
      taskIds[c] != "" && lazyLoad[c] == Pending && taskIds[c] !in loadedTaskIds && taskIds[c] !in loadingTaskIds
    }

    /** Admission: the id is marked loading, the counter raised and the card set `loading`. */
    method Admit(c: nat)
      requires Valid() && c < |taskIds| && activeLoads < maxConcurrent
      modifies this
      ensures Valid()
      ensures loadingTaskIds == old(loadingTaskIds) + {taskIds[c]} && activeLoads == old(activeLoads) + 1
      ensures lazyLoad == old(lazyLoad)[c := Loading]
      ensures inFlight == old(inFlight) + multiset{c}
      ensures polling == old(polling) && loadedTaskIds == old(loadedTaskIds)
    {
      loadingTaskIds := loadingTaskIds + {taskIds[c]};
      activeLoads := activeLoads + 1;
      lazyLoad := lazyLoad[c := Loading];
      inFlight := inFlight + multiset{c};
    }

    /**
     * `loadTaskImages` up to its first suspension: admitted at once below the ceiling,
     * otherwise left polling with the card still `pending`, so the observer can start a
     * second load for the same card.
     */
    method LoadTaskImages(c: nat)
      requires Valid() && c < |taskIds|
      modifies this
      ensures Valid()
      ensures loadedTaskIds == old(loadedTaskIds)
      ensures old(activeLoads) < maxConcurrent ==>
        && loadingTaskIds == old(loadingTaskIds) + {taskIds[c]} && activeLoads == old(activeLoads) + 1
        && lazyLoad == old(lazyLoad)[c := Loading]
        && inFlight == old(inFlight) + multiset{c} && polling == old(polling)
      ensures old(activeLoads) >= maxConcurrent ==>
        && loadingTaskIds == old(loadingTaskIds) && activeLoads == old(activeLoads)
        && lazyLoad == old(lazyLoad)
        && inFlight == old(inFlight) && polling == old(polling) + multiset{c}
      ensures old(activeLoads) >= maxConcurrent && old(ShouldLoad(c)) ==> ShouldLoad(c)
    {
      if activeLoads >= maxConcurrent {
        polling := polling + multiset{c};
      } else {
        Admit(c);
      }
    }

    /** The observer callback for a card entering the viewport. */
    method OnIntersect(c: nat) returns (triggered: bool)
      requires Valid() && c < |taskIds|
      modifies this
      ensures Valid()
      ensures triggered == old(ShouldLoad(c))
      ensures !triggered ==>
        && lazyLoad == old(lazyLoad) && activeLoads == old(activeLoads)
        && loadingTaskIds == old(loadingTaskIds) && inFlight == old(inFlight) && polling == old(polling)
      ensures loadedTaskIds == old(loadedTaskIds)
    {
      triggered := ShouldLoad(c);
      if triggered {
        LoadTaskImages(c);
      }
    }

    /** A polling load wakes after 100 ms and re-reads the counter. */
    method PollTick(c: nat)
      requires Valid() && c in polling
      modifies this
      ensures Valid()
      ensures loadedTaskIds == old(loadedTaskIds)
      ensures old(activeLoads) >= maxConcurrent ==>
        && lazyLoad == old(lazyLoad) && activeLoads == old(activeLoads) && loadingTaskIds == old(loadingTaskIds)
        && inFlight == old(inFlight) && polling == old(polling)
      ensures old(activeLoads) < maxConcurrent ==>
        && loadingTaskIds == old(loadingTaskIds) + {taskIds[c]} && activeLoads == old(activeLoads) + 1
        && lazyLoad == old(lazyLoad)[c := Loading]
        && inFlight == old(inFlight) + multiset{c} && polling == old(polling) - multiset{c}
    {
      if activeLoads < maxConcurrent {
        polling := polling - multiset{c};
        Admit(c);
      }
    }

    /**
     * An admitted load resumes with the detail request's outcome: the card gets its status
     * (and, when loaded, its tiles), and in every case the `finally` block releases the
     * slot and the loading mark.
     */
    method Finish(c: nat, d: Detail, hasGrid: bool) returns (tiles: seq<Tile>)
      requires Valid() && c in inFlight
      modifies this
      ensures Valid()
      ensures activeLoads == old(activeLoads) - 1
      ensures inFlight == old(inFlight) - multiset{c} && polling == old(polling)
      ensures loadingTaskIds == old(loadingTaskIds) - {taskIds[c]}
      ensures Settled(d, hasGrid).Some? ==> lazyLoad == old(lazyLoad)[c := Settled(d, hasGrid).value]
      ensures Settled(d, hasGrid).None? ==> lazyLoad == old(lazyLoad)
      ensures loadedTaskIds == old(loadedTaskIds) + (if Settled(d, hasGrid) == Some(Loaded) then {taskIds[c]} else {})
      ensures tiles == (if Settled(d, hasGrid) == Some(Loaded) then TilesUpTo(Listed(d.generated), |Listed(d.generated)|) else [])
    {
      var s := Settled(d, hasGrid);
      tiles := [];
      if s.Some? {
        lazyLoad := lazyLoad[c := s.value];
        if s.value == Loaded {
          tiles := RenderImages(Listed(d.generated));
          loadedTaskIds := loadedTaskIds + {taskIds[c]};
        }
      }
      Release(c);
    }

    /** The `finally` block: the loading mark is dropped and the slot released. */
    method Release(c: nat)
      requires Valid() && c in inFlight
      modifies this
      ensures Valid()
      ensures activeLoads == old(activeLoads) - 1
      ensures inFlight == old(inFlight) - multiset{c} && polling == old(polling)
      ensures loadingTaskIds == old(loadingTaskIds) - {taskIds[c]}
      ensures lazyLoad == old(lazyLoad) && loadedTaskIds == old(loadedTaskIds)
    {
      var id := taskIds[c];
      ghost var before := InFlightIds();
      loadingTaskIds := loadingTaskIds - {id};
      activeLoads := activeLoads - 1;
      inFlight := inFlight - multiset{c};
      forall x | x in loadingTaskIds ensures x in InFlightIds() {
        assert x in before && x != id;
        var c' :| c' in old(inFlight) && c' < |taskIds| && taskIds[c'] == x;
        assert c' != c;
        assert c' in inFlight;
      }
    }
  }
}
