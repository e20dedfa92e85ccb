/**
 * The history service (`history.js`): the task-list and task-detail URLs, the sequential
 * batch loader with its progress callback, and the full-image request.
 */
module HistoryService {
  import opened Wrappers
  import opened Strings
  import opened Images
  import HistoryRenderer

  const UserTasks: string := "/users/me/tasks"
  const TaskLimit: nat := 8

  /** `getTasks(limit = 8)`: metadata only (`lite=1`), at most `limit` tasks. */
  function TasksUrl(limit: Option<nat>): string {
    UserTasks + "?limit=" + NatToString(limit.GetOr(TaskLimit)) + "&lite=1"
  }

  /** Different limits ask for different URLs; no limit asks for eight. */
  lemma TasksUrlLimit(a: Option<nat>, b: Option<nat>)
    ensures TasksUrl(None) == TasksUrl(Some(8))
    ensures TasksUrl(a) == TasksUrl(b) <==> a.GetOr(TaskLimit) == b.GetOr(TaskLimit)
  {
    var p := UserTasks + "?limit=";
    var sa, sb := NatToString(a.GetOr(TaskLimit)), NatToString(b.GetOr(TaskLimit));
    if TasksUrl(a) == TasksUrl(b) {
      assert TasksUrl(a) == (p + sa) + "&lite=1";
      assert TasksUrl(b) == (p + sb) + "&lite=1";
      assert p + sa == TasksUrl(a)[..|TasksUrl(a)| - 7];
      assert p + sb == TasksUrl(b)[..|TasksUrl(b)| - 7];
      PrefixedNumberInjective(p, a.GetOr(TaskLimit), b.GetOr(TaskLimit));
    }
  }

  /** JavaScript truthiness of `maxImages`: present and not zero. */
  predicate MaxImagesGiven(maxImages: Option<nat>) {
    maxImages.Some? && maxImages.value != 0
  }

  /** The part of a detail URL before the optional `max_images` parameter. */
  function DetailBase(taskId: string, full: bool): string {
    UserTasks + "/" + taskId + "?full=" + (if full then "1" else "0")
  }

  /**
   * `getTaskDetail(taskId, maxImages = null, full = false)`: `?full=1|0`, followed by
   * `&max_images=N` only for a truthy `maxImages`.
   */
  function TaskDetailUrl(taskId: string, maxImages: Option<nat>, full: bool): (url: string)
    ensures StartsWith(url, DetailBase(taskId, full))
    ensures !MaxImagesGiven(maxImages) ==> url == DetailBase(taskId, full)
    ensures MaxImagesGiven(maxImages) ==> url == DetailBase(taskId, full) + "&max_images=" + NatToString(maxImages.value)
  {
    var url := DetailBase(taskId, full);
    if MaxImagesGiven(maxImages) then url + "&max_images=" + NatToString(maxImages.value) else url
  }

  /** A zero `maxImages` is dropped like a missing one, while distinct positive values give distinct URLs. */
  lemma MaxImagesParameter(taskId: string, full: bool, a: nat, b: nat)
    ensures TaskDetailUrl(taskId, Some(0), full) == TaskDetailUrl(taskId, None, full)
    ensures a != 0 ==> |TaskDetailUrl(taskId, Some(a), full)| > |TaskDetailUrl(taskId, None, full)|
    ensures a != 0 && b != 0 && TaskDetailUrl(taskId, Some(a), full) == TaskDetailUrl(taskId, Some(b), full) ==> a == b
  {
    if a != 0 && b != 0 && TaskDetailUrl(taskId, Some(a), full) == TaskDetailUrl(taskId, Some(b), full) {
      var p := DetailBase(taskId, full) + "&max_images=";
      assert TaskDetailUrl(taskId, Some(a), full) == p + NatToString(a);
      assert TaskDetailUrl(taskId, Some(b), full) == p + NatToString(b);
      PrefixedNumberInjective(p, a, b);
    }
  }

  /** `loadFullImages(taskId)` is `getTaskDetail(taskId, null, true)`: originals, every image. */
  function FullImagesUrl(taskId: string): (url: string)
    ensures url == UserTasks + "/" + taskId + "?full=1"
  {
    TaskDetailUrl(taskId, None, true)
  }

  /**
   * The full-image URL and the one-thumbnail preview URL of `batchLoadTaskDetails` share the
   * task path, differ in the `full` flag, and only the preview carries an image cap.
   */
  lemma FullImagesUrlDiffersFromPreview(taskId: string)
    ensures FullImagesUrl(taskId) == UserTasks + "/" + taskId + "?full=1"
    ensures TaskDetailUrl(taskId, Some(1), false) == UserTasks + "/" + taskId + "?full=0" + "&max_images=1"
    ensures FullImagesUrl(taskId) != TaskDetailUrl(taskId, Some(1), false)
  {
    var full, preview := FullImagesUrl(taskId), TaskDetailUrl(taskId, Some(1), false);
    var n := |DetailBase(taskId, true)|;
    assert full[n - 1] == '1';
    assert preview[n - 1] == '0';
  }

  // ---------------------------------------------------------------- batch loading

  /** A task detail as the backend returns it. */
  datatype TaskDetail = TaskDetail(taskId: string, generated: HistoryRenderer.Generated)

  /** One element of the batch result: a detail, or a copy of the task marked `error: true`. */
  datatype BatchItem = Detailed(detail: TaskDetail) | Errored(task: HistoryRenderer.TaskSummary)

  /** A call of the progress callback: `(i + 1, tasks.length, detail)`. */
  datatype ProgressCall = ProgressCall(done: nat, total: nat, detail: TaskDetail)

  /** The callback calls for the first `n` tasks, given each task's fetch (`None` when it threw). */
  function ProgressCalls(fetched: seq<Option<TaskDetail>>, n: nat): (calls: seq<ProgressCall>)
    requires n <= |fetched|
    ensures |calls| <= n
  {
    if n == 0 then []
    else
      var earlier := ProgressCalls(fetched, n - 1);
      if fetched[n - 1].Some? then earlier + [ProgressCall(n, |fetched|, fetched[n - 1].value)] else earlier
  }

  /** Every call reports a successful task, by its position counted from 1, out of all tasks. */
  lemma {:induction false} ProgressCallsReportSuccesses(fetched: seq<Option<TaskDetail>>, n: nat, k: nat)
    requires n <= |fetched| && k < |ProgressCalls(fetched, n)|
    ensures var c := ProgressCalls(fetched, n)[k];
      1 <= c.done <= n && c.total == |fetched| && fetched[c.done - 1] == Some(c.detail)
  {
    if k < |ProgressCalls(fetched, n - 1)| {
      ProgressCallsReportSuccesses(fetched, n - 1, k);
    }
  }

  /** The calls come in strictly increasing task order. */
  lemma {:induction false} ProgressCallsIncrease(fetched: seq<Option<TaskDetail>>, n: nat, j: nat, k: nat)
    requires n <= |fetched| && j < k < |ProgressCalls(fetched, n)|
    ensures ProgressCalls(fetched, n)[j].done < ProgressCalls(fetched, n)[k].done
  {
    var earlier := ProgressCalls(fetched, n - 1);
    if k < |earlier| {
      ProgressCallsIncrease(fetched, n - 1, j, k);
    } else {
      ProgressCallsReportSuccesses(fetched, n - 1, j);
    }
  }

  /** Every successful task gets a call. */
  lemma {:induction false} ProgressCallsComplete(fetched: seq<Option<TaskDetail>>, n: nat, i: nat)
    requires i < n <= |fetched| && fetched[i].Some?
    ensures ProgressCall(i + 1, |fetched|, fetched[i].value) in ProgressCalls(fetched, n)
  {
    if i < n - 1 {
      ProgressCallsComplete(fetched, n - 1, i);
    }
  }

  /** One more task adds a call exactly when its fetch succeeded. */
  lemma ProgressCallsStep(fetched: seq<Option<TaskDetail>>, i: nat)
    requires i < |fetched|
    ensures fetched[i].Some? ==>
      ProgressCalls(fetched, i + 1) == ProgressCalls(fetched, i) + [ProgressCall(i + 1, |fetched|, fetched[i].value)]
    ensures fetched[i].None? ==> ProgressCalls(fetched, i + 1) == ProgressCalls(fetched, i)
  {
  }

  /** The detail requests for the first `n` tasks, each for a single thumbnail. */
  function PreviewRequests(tasks: seq<HistoryRenderer.TaskSummary>, n: nat): (r: seq<string>)
    requires n <= |tasks|
    ensures |r| == n && forall k :: 0 <= k < n ==> r[k] == TaskDetailUrl(tasks[k].taskId, Some(1), false)
  {
    if n == 0 then [] else PreviewRequests(tasks, n - 1) + [TaskDetailUrl(tasks[n - 1].taskId, Some(1), false)]
  }

  /** The batch results for the first `n` tasks: the detail, or the task marked as failed. */
  function BatchItems(tasks: seq<HistoryRenderer.TaskSummary>, fetched: seq<Option<TaskDetail>>, n: nat): (r: seq<BatchItem>)
    requires n <= |tasks| == |fetched|
    ensures |r| == n && forall k :: 0 <= k < n ==>
      r[k] == (if fetched[k].Some? then Detailed(fetched[k].value) else Errored(tasks[k]))
  {
    if n == 0 then []
    else BatchItems(tasks, fetched, n - 1) + [if fetched[n - 1].Some? then Detailed(fetched[n - 1].value) else Errored(tasks[n - 1])]
  }

  /**
   * `batchLoadTaskDetails` with each task's preview fetch passed in: one request per task
   * for a single thumbnail, one result per task in order (the detail, or the task marked
   * as failed), and a progress call for each success when a callback is given.
   */
  method BatchLoadTaskDetails(tasks: seq<HistoryRenderer.TaskSummary>, fetched: seq<Option<TaskDetail>>, hasCallback: bool)
    returns (requests: seq<string>, results: seq<BatchItem>, calls: seq<ProgressCall>)
    requires |fetched| == |tasks|
    ensures |requests| == |tasks| && |results| == |tasks|
    ensures forall i :: 0 <= i < |tasks| ==> requests[i] == TaskDetailUrl(tasks[i].taskId, Some(1), false)
    ensures forall i :: 0 <= i < |tasks| ==>
      results[i] == (if fetched[i].Some? then Detailed(fetched[i].value) else Errored(tasks[i]))
    ensures calls == (if hasCallback then ProgressCalls(fetched, |tasks|) else [])
  {
    requests, results, calls := [], [], [];
    for i := 0 to |tasks|
      invariant requests == PreviewRequests(tasks, i)
      invariant results == BatchItems(tasks, fetched, i)
      invariant calls == (if hasCallback then ProgressCalls(fetched, i) else [])
    {
      ProgressCallsStep(fetched, i);
      requests := requests + [TaskDetailUrl(tasks[i].taskId, Some(1), false)];
      match fetched[i]
      case Some(detail) =>
        results := results + [Detailed(detail)];
        if hasCallback {
          calls := calls + [ProgressCall(i + 1, |tasks|, detail)];
        }
      case None =>
        results := results + [Errored(tasks[i])];
    }
  }
}
