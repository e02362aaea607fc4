/** The two server routines that drive a job through the backend:
    `processJob`, which parses the prompt, builds and submits the workflow and
    records the backend session, and `handleWebSocketMessage`, which turns the
    backend's progress, completion and error messages into registry updates,
    collecting the output images on completion.

    Each routine is one sequential step. The backend's replies (the session
    handle, the prompt id, the history manifest) and the outcome of fetching
    and saving each image are inputs of the step. */
module Handlers {
  import opened Values
  import opened Text
  import opened Directives
  import opened WorkflowGenerator
  import opened Jobs

  /** The backend messages the handler distinguishes. `Executing(None)` is
      `executing` with `node: null`, the end of a run. */
  datatype BackendMessage =
    | Progress(value: int, max: int)
    | Executing(node: Option<string>)
    | ExecutionError(exceptionMessage: Option<string>)
    | Other(kind: string)

  /** An image entry of the history manifest. */
  datatype ImageInfo = ImageInfo(filename: string, subfolder: Option<string>, kind: Option<string>)

  /** One node's entry under `outputs`; `images` may be missing. */
  datatype NodeOutput = NodeOutput(images: Option<seq<ImageInfo>>)

  /** A prompt's history entry; `outputs` may be missing. The node entries are
      listed in the order `for...in` visits them. */
  datatype HistoryEntry = HistoryEntry(outputs: Option<seq<(string, NodeOutput)>>)

  /** The reply to the history request: an error, or the entries by prompt id. */
  datatype HistoryReply = HistoryFailed(error: Exception) | History(entries: map<string, HistoryEntry>)

  /** The arguments of an image download. */
  datatype Fetch = Fetch(filename: string, subfolder: string, kind: string)

  /** The outcome of downloading one image and writing it to disk: the
      `Date.now()` its local name is built from, or the error thrown. */
  datatype Saved = Saved(timestamp: nat) | SaveFailed(error: Exception)

  /** Downloads and writes, by request and by how many images were saved before. */
  type ImageIo = (Fetch, nat) -> Saved

  const NoOutputs: string := "No outputs found in ComfyUI history"
  const ExecutionFailed: string := "Execution error"

  /** `v || default` for a string that may be missing: the empty string also
      falls back to the default. */
  function Or(v: Option<string>, default: string): (r: string)
    ensures v.Some? && v.value != "" ==> r == v.value
    ensures v.None? || v.value == "" ==> r == default
  {
    if v.Some? && v.value != "" then v.value else default
  }

  function FetchOf(img: ImageInfo): Fetch
  {
    Fetch(img.filename, Or(img.subfolder, ""), Or(img.kind, "output"))
  }

  /** `${jobId}_${Date.now()}.png`. */
  function FileName(jobId: string, timestamp: nat): string
  {
    jobId + "_" + NatToString(timestamp) + ".png"
  }

  function Reference(jobId: string, img: ImageInfo, timestamp: nat): ImageRef
  {
    ImageRef(FileName(jobId, timestamp), "/api/images/" + FileName(jobId, timestamp), img.filename)
  }

  /** Images of one job saved at different milliseconds get different names.
      The name depends on nothing else: two images of one job saved in the
      same millisecond get the same name, and the second write replaces the
      first file, while both references stay in the job's list. */
  lemma FileNamesDistinct(jobId: string, s: nat, t: nat)
    requires s != t
    ensures FileName(jobId, s) != FileName(jobId, t)
  {
    var a, b := NatToString(s), NatToString(t);
    if FileName(jobId, s) == FileName(jobId, t) {
      var n := |jobId| + 1;
      assert |a| == |b|;
      assert a == FileName(jobId, s)[n..n + |a|];
      assert b == FileName(jobId, t)[n..n + |b|];
      DecimalRoundTrip(s);
      DecimalRoundTrip(t);
      assert false;
    }
  }

  function ImagesOf(output: NodeOutput): seq<ImageInfo>
  {
    if output.images.Some? then output.images.value else []
  }

  /** Every image of every node, in visiting order. */
  function Flatten(nodes: seq<(string, NodeOutput)>): seq<ImageInfo>
  {
    if nodes == [] then [] else ImagesOf(nodes[0].1) + Flatten(nodes[1..])
  }

  /** `acc` followed by the images of a result, or its error. */
  function Prepend(acc: seq<ImageRef>, r: Result<seq<ImageRef>, Exception>): Result<seq<ImageRef>, Exception>
  {
    if r.Failure? then r else Success(acc + r.value)
  }

  /** Saving `imgs` one after the other, `k` images having been saved before:
      one reference per image, in order, or the first error. */
  function SaveFrom(jobId: string, imgs: seq<ImageInfo>, io: ImageIo, k: nat): (r: Result<seq<ImageRef>, Exception>)
    ensures r.Success? ==> |r.value| == |imgs|
    decreases |imgs|
  {
    if imgs == [] then Success([])
    else
      var first := io(FetchOf(imgs[0]), k);
      if first.SaveFailed? then Failure(first.error)
      else Prepend([Reference(jobId, imgs[0], first.timestamp)], SaveFrom(jobId, imgs[1..], io, k + 1))
  }

  /** On success, the i-th reference names the i-th image, saved as the
      (k+i)-th. */
  lemma {:induction false} SavedAt(jobId: string, imgs: seq<ImageInfo>, io: ImageIo, k: nat, i: nat)
    requires SaveFrom(jobId, imgs, io, k).Success? && i < |imgs|
    ensures io(FetchOf(imgs[i]), k + i).Saved?
    ensures SaveFrom(jobId, imgs, io, k).value[i] == Reference(jobId, imgs[i], io(FetchOf(imgs[i]), k + i).timestamp)
    decreases i
  {
    if i > 0 {
      SavedAt(jobId, imgs[1..], io, k + 1, i - 1);
      assert imgs[1..][i - 1] == imgs[i] && k + 1 + (i - 1) == k + i;
    }
  }

  /** A failure is the error of the first image that could not be saved. */
  lemma {:induction false} SaveFailedAt(jobId: string, imgs: seq<ImageInfo>, io: ImageIo, k: nat)
      returns (i: nat)
    requires SaveFrom(jobId, imgs, io, k).Failure?
    ensures i < |imgs| && io(FetchOf(imgs[i]), k + i) == SaveFailed(SaveFrom(jobId, imgs, io, k).error)
    ensures forall j :: 0 <= j < i ==> io(FetchOf(imgs[j]), k + j).Saved?
    decreases |imgs|
  {
    if io(FetchOf(imgs[0]), k).SaveFailed? {
      i := 0;
    } else {
      var i' := SaveFailedAt(jobId, imgs[1..], io, k + 1);
      i := i' + 1;
      forall j | 0 <= j < i
        ensures io(FetchOf(imgs[j]), k + j).Saved?
      {
        if j > 0 {
          assert imgs[1..][j - 1] == imgs[j] && k + 1 + (j - 1) == k + j;
        }
      }
      assert imgs[1..][i'] == imgs[i];
    }
  }

  /** Saving succeeds when every image is saved. */
  lemma {:induction false} SaveAllSucceeds(jobId: string, imgs: seq<ImageInfo>, io: ImageIo, k: nat)
    requires forall i :: 0 <= i < |imgs| ==> io(FetchOf(imgs[i]), k + i).Saved?
    ensures SaveFrom(jobId, imgs, io, k).Success?
    decreases |imgs|
  {
    if imgs != [] {
      assert io(FetchOf(imgs[0]), k + 0).Saved?;
      forall i | 0 <= i < |imgs[1..]|
        ensures io(FetchOf(imgs[1..][i]), k + 1 + i).Saved?
      {
        assert imgs[1..][i] == imgs[i + 1] && k + 1 + i == k + (i + 1);
      }
      SaveAllSucceeds(jobId, imgs[1..], io, k + 1);
    }
  }

  lemma PrependPrepend(a: seq<ImageRef>, b: seq<ImageRef>, r: Result<seq<ImageRef>, Exception>)
    ensures Prepend(a, Prepend(b, r)) == Prepend(a + b, r)
  {
    if r.Success? {
      assert a + (b + r.value) == a + b + r.value;
    }
  }

  /** Saving two lists in a row is saving the first, then the second
      numbered after it. */
  lemma {:induction false} SaveFromAppend(jobId: string, a: seq<ImageInfo>, b: seq<ImageInfo>, io: ImageIo, k: nat)
    ensures SaveFrom(jobId, a + b, io, k) ==
      if SaveFrom(jobId, a, io, k).Failure? then SaveFrom(jobId, a, io, k)
      else Prepend(SaveFrom(jobId, a, io, k).value, SaveFrom(jobId, b, io, k + |a|))
    decreases |a|
  {
    if a == [] {
      assert a + b == b;
      if SaveFrom(jobId, b, io, k).Success? {
        assert [] + SaveFrom(jobId, b, io, k).value == SaveFrom(jobId, b, io, k).value;
      }
    } else {
      assert (a + b)[0] == a[0] && (a + b)[1..] == a[1..] + b;
      SaveFromAppend(jobId, a[1..], b, io, k + 1);
      var first := io(FetchOf(a[0]), k);
      if first.Saved? && SaveFrom(jobId, a[1..], io, k + 1).Success? {
        PrependPrepend([Reference(jobId, a[0], first.timestamp)], SaveFrom(jobId, a[1..], io, k + 1).value,
          SaveFrom(jobId, b, io, k + |a|));
      }
    }
  }

  lemma FlattenFrom(nodes: seq<(string, NodeOutput)>, n: nat)
    requires n < |nodes|
    ensures Flatten(nodes[n..]) == ImagesOf(nodes[n].1) + Flatten(nodes[n + 1..])
  {
    assert nodes[n..][0] == nodes[n] && nodes[n..][1..] == nodes[n + 1..];
  }

  /** The inner loop over one node's images: saves each after `images`,
      stopping at the first error. */
  method SaveImages(jobId: string, list: seq<ImageInfo>, io: ImageIo, images: seq<ImageRef>)
    returns (r: Result<seq<ImageRef>, Exception>)
    ensures r == Prepend(images, SaveFrom(jobId, list, io, |images|))
  {
    var saved := images;
    var j := 0;
    assert list[j..] == list;
    while j < |list|
      invariant 0 <= j <= |list| && |saved| == |images| + j
      invariant Prepend(images, SaveFrom(jobId, list, io, |images|)) ==
        Prepend(saved, SaveFrom(jobId, list[j..], io, |saved|))
    {
      var img := list[j];
      assert list[j..][0] == img && list[j..][1..] == list[j + 1..];
      var outcome := io(FetchOf(img), |saved|);
      if outcome.SaveFailed? {
        return Failure(outcome.error);
      }
      var ref := Reference(jobId, img, outcome.timestamp);
      PrependPrepend(saved, [ref], SaveFrom(jobId, list[j + 1..], io, |saved| + 1));
      saved := saved + [ref];
      j := j + 1;
    }
    assert saved + [] == saved;
    r := Success(saved);
  }

  /** One round of the outer loop: the images of node `n`, then those of
      the nodes after it. */
  lemma NodeStep(jobId: string, nodes: seq<(string, NodeOutput)>, n: nat, io: ImageIo, images: seq<ImageRef>)
    requires n < |nodes|
    ensures var first := Prepend(images, SaveFrom(jobId, ImagesOf(nodes[n].1), io, |images|));
      Prepend(images, SaveFrom(jobId, Flatten(nodes[n..]), io, |images|)) ==
      if first.Failure? then first
      else Prepend(first.value, SaveFrom(jobId, Flatten(nodes[n + 1..]), io, |first.value|))
  {
    var list := ImagesOf(nodes[n].1);
    FlattenFrom(nodes, n);
    SaveFromAppend(jobId, list, Flatten(nodes[n + 1..]), io, |images|);
    var saved := SaveFrom(jobId, list, io, |images|);
    if saved.Success? {
      PrependPrepend(images, saved.value, SaveFrom(jobId, Flatten(nodes[n + 1..]), io, |images| + |list|));
    }
  }

  /** The nested loops over the output nodes and their images: saves each
      image and builds its reference, stopping at the first error. */
  method CollectImages(jobId: string, nodes: seq<(string, NodeOutput)>, io: ImageIo)
    returns (r: Result<seq<ImageRef>, Exception>)
    ensures r == SaveFrom(jobId, Flatten(nodes), io, 0)
  {
    ghost var all := SaveFrom(jobId, Flatten(nodes), io, 0);
    var images: seq<ImageRef> := [];
    var n := 0;
    assert nodes[0..] == nodes;
    assert all.Success? ==> [] + all.value == all.value;
    while n < |nodes|
      invariant 0 <= n <= |nodes|
      invariant all == Prepend(images, SaveFrom(jobId, Flatten(nodes[n..]), io, |images|))
    {
      NodeStep(jobId, nodes, n, io, images);
      var saved := SaveImages(jobId, ImagesOf(nodes[n].1), io, images);
      if saved.Failure? {
        return saved;
      }
      images := saved.value;
      n := n + 1;
    }
    assert images + [] == images;
    r := Success(images);
  }

  /** What the server state consists of: the registry (records and their
      order), the backend session of each job, and the sessions closed so far. */
  datatype Snapshot = Snapshot(
    jobs: map<string, Job>,
    order: seq<string>,
    sessions: map<string, nat>,
    closed: seq<nat>)

  /** Closing and forgetting the session of `id`, when there is one. */
  function Release(s: Snapshot, id: string): (t: Snapshot)
    ensures t.jobs == s.jobs && t.order == s.order
    ensures t.sessions == s.sessions - {id}
    ensures id in s.sessions ==> t.closed == s.closed + [s.sessions[id]]
    ensures id !in s.sessions ==> t == s
  {
    if id in s.sessions then s.(sessions := s.sessions - {id}, closed := s.closed + [s.sessions[id]])
    else s
  }

  function Fail(s: Snapshot, id: string, e: Exception, now: int): Snapshot
  {
    s.(jobs := Updated(s.jobs, id, FailedPatch(e), now))
  }

  /** The history key of a prompt id: `history[null]` looks up "null". */
  function PromptKey(pid: Option<string>): string
  {
    if pid.Some? then pid.value else "null"
  }

  /** The images of a finished run: `Success(None)` when the history has no
      outputs for the prompt, the error when the history request or a save
      throws. */
  function Outcome(jobId: string, pid: Option<string>, history: HistoryReply, io: ImageIo)
    : Result<Option<seq<ImageRef>>, Exception>
  {
    match history
    case HistoryFailed(e) => Failure(e)
    case History(entries) =>
      var key := PromptKey(pid);
      if key !in entries || entries[key].outputs.None? then Success(None)
      else
        var saved := SaveFrom(jobId, Flatten(entries[key].outputs.value), io, 0);
        if saved.Failure? then Failure(saved.error) else Success(Some(saved.value))
  }

  /** The end of a finished run: the job completes with its images and its
      session is closed, or it fails; a thrown error skips the cleanup. */
  function Settle(s: Snapshot, jobId: string, outcome: Result<Option<seq<ImageRef>>, Exception>, now: int): Snapshot
  {
    match outcome
    case Failure(e) => Fail(s, jobId, e, now)
    case Success(None) => Release(Fail(s, jobId, NewError(NoOutputs), now), jobId)
    case Success(Some(images)) => Release(s.(jobs := Updated(s.jobs, jobId, CompletedPatch(images), now)), jobId)
  }

  /** `getHistory` and the download-and-save loop of a finished run. */
  method FetchOutcome(jobId: string, pid: Option<string>, history: HistoryReply, io: ImageIo)
    returns (outcome: Result<Option<seq<ImageRef>>, Exception>)
    ensures outcome == Outcome(jobId, pid, history, io)
  {
    match history {
      case HistoryFailed(e) =>
        outcome := Failure(e);
      case History(entries) =>
        var key := PromptKey(pid);
        if key in entries && entries[key].outputs.Some? {
          var saved := CollectImages(jobId, entries[key].outputs.value, io);
          outcome := if saved.Failure? then Failure(saved.error) else Success(Some(saved.value));
        } else {
          outcome := Success(None);
        }
    }
  }

  /** The state after `handleWebSocketMessage(jobId, msg)`. */
  function Dispatch(s: Snapshot, jobId: string, msg: BackendMessage, now: int, history: HistoryReply, io: ImageIo): Snapshot
    requires msg.Progress? ==> msg.max > 0
  {
    if jobId !in s.jobs then s
    else
      match msg
      case Progress(value, max) =>
        s.(jobs := Updated(s.jobs, jobId, ProgressPatch(RoundDiv(100 * value, max)), now))
      case Executing(node) =>
        if node.Some? then s
        else Settle(s, jobId, Outcome(jobId, s.jobs[jobId].comfyPromptId, history, io), now)
      case ExecutionError(m) => Release(Fail(s, jobId, NewError(Or(m, ExecutionFailed)), now), jobId)
      case Other(_) => s
  }

  /** The result of `processJob`: the new state, the workflow sent to the
      backend if one was sent, and the exception that escapes when even the
      failure handling throws. */
  datatype Launched = Launched(state: Snapshot, submitted: Option<Workflow>, escaped: Option<Exception>)

  /** The workflow for a job: the prompt without its directives, the directive
      options overridden by the job's own options. */
  function JobWorkflow(job: Job, randomSeed: nat): Workflow
    requires randomSeed < SeedBound
  {
    GenerateTextToImage(Cleaned(job.prompt), ParsedOptions(job.prompt) + job.options, randomSeed)
  }

  /** The first steps of `processJob`: parse the prompt's directives, let the
      job's own options override them, and generate the workflow. */
  method BuildWorkflow(job: Job, randomSeed: nat) returns (workflow: Workflow)
    requires randomSeed < SeedBound
    ensures workflow == JobWorkflow(job, randomSeed)
  {
    var prompt, options := ParseMidjourneyParams(job.prompt);
    workflow := GenerateTextToImage(prompt, options + job.options, randomSeed);
  }

  /** The failure handling of `processJob`: mark the job failed and release its
      session; an unknown job makes `setFailed` throw, which escapes before
      the session is released. */
  function Abort(s: Snapshot, id: string, e: Exception, now: int, submitted: Option<Workflow>): Launched
  {
    if id in s.jobs then Launched(Release(Fail(s, id, e, now), id), submitted, None)
    else Launched(s, submitted, Some(NotFound(id)))
  }

  /** The outcome of `processJob(job)`, given the session handle or the
      connection error, and the prompt id or the submission error. */
  function Launch(s: Snapshot, job: Job, randomSeed: nat, connection: Result<nat, Exception>,
                  submission: Result<string, Exception>, now: int): Launched
    requires randomSeed < SeedBound
  {
    match connection
    case Failure(e) => Abort(s, job.id, e, now, None)
    case Success(ws) =>
      Submit(s.(sessions := s.sessions[job.id := ws]), job.id, JobWorkflow(job, randomSeed), submission, now)
  }

  /** The part of `processJob` after the session is open: the workflow has
      been sent, and the job is marked processing under the returned prompt
      id, or failed with the submission error. */
  function Submit(s: Snapshot, id: string, workflow: Workflow, submission: Result<string, Exception>, now: int): Launched
  {
    match submission
    case Failure(e) => Abort(s, id, e, now, Some(workflow))
    case Success(pid) =>
      if id in s.jobs then Launched(s.(jobs := Updated(s.jobs, id, ProcessingPatch(pid), now)), Some(workflow), None)
      else Abort(s, id, NotFound(id), now, Some(workflow))
  }

  /** A message only ever touches its own job and its own session: the
      registry keeps its ids and order, every other record and session is as
      it was, and a message for an unknown job changes nothing. */
  lemma DispatchFrame(s: Snapshot, jobId: string, msg: BackendMessage, now: int, history: HistoryReply, io: ImageIo)
    requires msg.Progress? ==> msg.max > 0
    ensures var t := Dispatch(s, jobId, msg, now, history, io);
      && t.order == s.order && t.jobs.Keys == s.jobs.Keys
      && (forall k :: k in s.jobs && k != jobId ==> t.jobs[k] == s.jobs[k])
      && (t.sessions == s.sessions || t.sessions == s.sessions - {jobId})
      && (jobId !in s.jobs ==> t == s)
      && (jobId in s.jobs ==>
            (t.jobs[jobId].id == s.jobs[jobId].id && t.jobs[jobId].prompt == s.jobs[jobId].prompt
             && t.jobs[jobId].createdAt == s.jobs[jobId].createdAt))
  {
  }

  /** `Math.round(value / max * 100)` stays within [0, 100] when the value
      does not exceed the maximum. */
  lemma PercentBounds(value: int, max: int)
    requires 0 <= value <= max && 0 < max
    ensures 0 <= RoundDiv(100 * value, max) <= 100
  {
    var r := RoundDiv(100 * value, max);
    ScaleDown(-1, r, max);
    ScaleDown(r, 101, max);
  }

  /** A progress message records the rounded percentage, clamped to
      [0, 100], and changes neither the status nor the session. */
  lemma DispatchProgress(s: Snapshot, jobId: string, value: int, max: int, now: int, history: HistoryReply, io: ImageIo)
    requires max > 0 && jobId in s.jobs
    ensures var t := Dispatch(s, jobId, Progress(value, max), now, history, io);
      && t.jobs[jobId].progress == Clamp(RoundDiv(100 * value, max), 0, 100)
      && 0 <= t.jobs[jobId].progress <= 100
      && (0 <= value <= max ==> t.jobs[jobId].progress == RoundDiv(100 * value, max))
      && t.jobs[jobId].status == s.jobs[jobId].status
      && t.jobs[jobId].updatedAt == now
      && t.sessions == s.sessions && t.closed == s.closed
  {
    if 0 <= value <= max {
      PercentBounds(value, max);
    }
  }

  /** The end of a run whose history lists outputs: when every image is
      saved the job completes at 100% with one reference per image, in
      order, named after the image the backend produced, and its session is
      closed. */
  lemma DispatchCompleted(s: Snapshot, jobId: string, now: int, entries: map<string, HistoryEntry>,
                           nodes: seq<(string, NodeOutput)>, io: ImageIo)
    requires jobId in s.jobs
    requires PromptKey(s.jobs[jobId].comfyPromptId) in entries
    requires entries[PromptKey(s.jobs[jobId].comfyPromptId)].outputs == Some(nodes)
    requires forall i :: 0 <= i < |Flatten(nodes)| ==> io(FetchOf(Flatten(nodes)[i]), i).Saved?
    ensures var imgs := Flatten(nodes);
      var t := Dispatch(s, jobId, Executing(None), now, History(entries), io);
      && t.jobs[jobId].status == Completed && t.jobs[jobId].progress == 100
      && |t.jobs[jobId].images| == |imgs|
      && (forall i :: 0 <= i < |imgs| ==> t.jobs[jobId].images[i].comfyFilename == imgs[i].filename)
      && (forall i :: 0 <= i < |imgs| ==>
            t.jobs[jobId].images[i] == Reference(jobId, imgs[i], io(FetchOf(imgs[i]), i).timestamp))
      && t.jobs[jobId].error == s.jobs[jobId].error
      && jobId !in t.sessions
      && (jobId in s.sessions ==> t.closed == s.closed + [s.sessions[jobId]])
  {
    var imgs := Flatten(nodes);
    forall i | 0 <= i < |imgs|
      ensures io(FetchOf(imgs[i]), 0 + i).Saved?
    {
      assert 0 + i == i;
    }
    SaveAllSucceeds(jobId, imgs, io, 0);
    var refs := SaveFrom(jobId, imgs, io, 0).value;
    forall i | 0 <= i < |imgs|
      ensures refs[i] == Reference(jobId, imgs[i], io(FetchOf(imgs[i]), i).timestamp)
    {
      SavedAt(jobId, imgs, io, 0, i);
    }
  }

  /** A history entry that lists output nodes but no images completes the
      job with no images. */
  lemma EmptyOutputsComplete(s: Snapshot, jobId: string, now: int, entries: map<string, HistoryEntry>, io: ImageIo)
    requires jobId in s.jobs
    requires PromptKey(s.jobs[jobId].comfyPromptId) in entries
    requires entries[PromptKey(s.jobs[jobId].comfyPromptId)].outputs == Some([])
    ensures var t := Dispatch(s, jobId, Executing(None), now, History(entries), io);
      t.jobs[jobId].status == Completed && t.jobs[jobId].images == [] && jobId !in t.sessions
  {
  }

  /** The end of a run with no outputs in the history fails the job with a
      fixed message and closes its session. */
  lemma DispatchNoOutputs(s: Snapshot, jobId: string, now: int, entries: map<string, HistoryEntry>, io: ImageIo)
    requires jobId in s.jobs
    requires PromptKey(s.jobs[jobId].comfyPromptId) !in entries
      || entries[PromptKey(s.jobs[jobId].comfyPromptId)].outputs.None?
    ensures var t := Dispatch(s, jobId, Executing(None), now, History(entries), io);
      && t.jobs[jobId].status == Failed && t.jobs[jobId].error == Some(NoOutputs)
      && t.jobs[jobId].images == s.jobs[jobId].images
      && jobId !in t.sessions
  {
  }

  /** When the history request or saving an image throws, the job fails
      with that error's message and its session stays open. */
  lemma DispatchCrashKeepsSession(s: Snapshot, jobId: string, now: int, history: HistoryReply, io: ImageIo)
    requires jobId in s.jobs
    requires Outcome(jobId, s.jobs[jobId].comfyPromptId, history, io).Failure?
    ensures var e := Outcome(jobId, s.jobs[jobId].comfyPromptId, history, io).error;
      var t := Dispatch(s, jobId, Executing(None), now, history, io);
      && t.jobs[jobId].status == Failed && t.jobs[jobId].error == Some(Message(e))
      && t.sessions == s.sessions && t.closed == s.closed
  {
  }

  /** The error raised by a failing save is the first image's that could
      not be saved, and the job records its message. */
  lemma SaveErrorRecorded(s: Snapshot, jobId: string, now: int, entries: map<string, HistoryEntry>,
                           nodes: seq<(string, NodeOutput)>, io: ImageIo) returns (i: nat)
    requires jobId in s.jobs
    requires PromptKey(s.jobs[jobId].comfyPromptId) in entries
    requires entries[PromptKey(s.jobs[jobId].comfyPromptId)].outputs == Some(nodes)
    requires SaveFrom(jobId, Flatten(nodes), io, 0).Failure?
    ensures var imgs := Flatten(nodes);
      var t := Dispatch(s, jobId, Executing(None), now, History(entries), io);
      && i < |imgs| && io(FetchOf(imgs[i]), i).SaveFailed?
      && (forall j :: 0 <= j < i ==> io(FetchOf(imgs[j]), j).Saved?)
      && t.jobs[jobId].status == Failed
      && t.jobs[jobId].error == Some(Message(io(FetchOf(imgs[i]), i).error))
      && t.sessions == s.sessions
  {
    i := SaveFailedAt(jobId, Flatten(nodes), io, 0);
  }

  /** A backend execution error fails the job with the backend's message,
      or a fixed one when it sends none, and closes the session. */
  lemma DispatchExecutionError(s: Snapshot, jobId: string, m: Option<string>, now: int, history: HistoryReply, io: ImageIo)
    requires jobId in s.jobs
    ensures var t := Dispatch(s, jobId, ExecutionError(m), now, history, io);
      && t.jobs[jobId].status == Failed
      && (m.Some? && m.value != "" ==> t.jobs[jobId].error == m)
      && (m.None? || m.value == "" ==> t.jobs[jobId].error == Some(ExecutionFailed))
      && t.jobs[jobId].progress == s.jobs[jobId].progress
      && jobId !in t.sessions
  {
  }

  /** Other messages, and `executing` for a particular node, change nothing. */
  lemma DispatchIgnored(s: Snapshot, jobId: string, msg: BackendMessage, now: int, history: HistoryReply, io: ImageIo)
    requires msg.Other? || (msg.Executing? && msg.node.Some?)
    ensures Dispatch(s, jobId, msg, now, history, io) == s
  {
  }

  /** The workflow a job submits: the encoder gets the prompt without its
      directives, and each setting comes from the job's own options first,
      then from the prompt's directives, then from the generator's default. */
  lemma JobWorkflowSettings(job: Job, randomSeed: nat, p: Param)
    requires randomSeed < SeedBound
    ensures var w := JobWorkflow(job, randomSeed);
      && w[6].inputs["text"] == Lit(Str(Cleaned(job.prompt)))
      && Slot(p).0 in w && Slot(p).1 in w[Slot(p).0].inputs
      && (Key(p) in job.options ==> w[Slot(p).0].inputs[Slot(p).1] == Lit(job.options[Key(p)]))
      && (Key(p) !in job.options && Key(p) in ParsedOptions(job.prompt) ==>
            w[Slot(p).0].inputs[Slot(p).1] == Lit(ParsedOptions(job.prompt)[Key(p)]))
      && (Key(p) !in job.options && Key(p) !in ParsedOptions(job.prompt) ==>
            w[Slot(p).0].inputs[Slot(p).1] == Lit(Default(p, randomSeed)))
  {
    var merged := ParsedOptions(job.prompt) + job.options;
    OptionReachesInput(Cleaned(job.prompt), merged, randomSeed, p);
    PromptReachesEncoder(Cleaned(job.prompt), merged, randomSeed);
  }

  /** A job whose session opens and whose workflow is accepted is marked
      processing under the backend's prompt id, with its session recorded;
      nothing else in the registry changes and nothing is closed. */
  lemma LaunchSubmitted(s: Snapshot, job: Job, randomSeed: nat, ws: nat, pid: string, now: int)
    requires randomSeed < SeedBound && job.id in s.jobs
    ensures var l := Launch(s, job, randomSeed, Success(ws), Success(pid), now);
      && l.escaped.None? && l.submitted == Some(JobWorkflow(job, randomSeed))
      && l.state.jobs[job.id].status == Processing
      && l.state.jobs[job.id].comfyPromptId == Some(pid)
      && l.state.jobs[job.id].progress == s.jobs[job.id].progress
      && l.state.jobs.Keys == s.jobs.Keys && l.state.order == s.order
      && (forall k :: k in s.jobs && k != job.id ==> l.state.jobs[k] == s.jobs[k])
      && l.state.sessions == s.sessions[job.id := ws]
      && l.state.closed == s.closed
  {
  }

  /** A job whose session cannot be opened, or whose workflow is refused,
      is marked failed with the error's message and its session is closed;
      the workflow counts as sent only once the session is open. */
  lemma LaunchFails(s: Snapshot, job: Job, randomSeed: nat, connection: Result<nat, Exception>,
                    submission: Result<string, Exception>, now: int)
    requires randomSeed < SeedBound && job.id in s.jobs
    requires connection.Failure? || submission.Failure?
    ensures var e := if connection.Failure? then connection.error else submission.error;
      var l := Launch(s, job, randomSeed, connection, submission, now);
      && l.escaped.None?
      && l.state.jobs[job.id].status == Failed
      && l.state.jobs[job.id].error == Some(Message(e))
      && (forall k :: k in s.jobs && k != job.id ==> l.state.jobs[k] == s.jobs[k])
      && job.id !in l.state.sessions
      && (connection.Failure? ==> l.submitted.None?)
      && (connection.Success? ==>
            (l.submitted == Some(JobWorkflow(job, randomSeed)) && l.state.closed == s.closed + [connection.value]))
  {
  }

  /** `processJob` for a job that is not in the registry: its failure
      handling throws the not-found error, which escapes before the session
      is closed, so an opened session stays recorded. */
  lemma LaunchUnknownJob(s: Snapshot, job: Job, randomSeed: nat, connection: Result<nat, Exception>,
                         submission: Result<string, Exception>, now: int)
    requires randomSeed < SeedBound && job.id !in s.jobs
    ensures var l := Launch(s, job, randomSeed, connection, submission, now);
      && l.escaped == Some(NotFound(job.id))
      && l.state.jobs == s.jobs && l.state.closed == s.closed
      && (connection.Success? ==> l.state.sessions == s.sessions[job.id := connection.value])
      && (connection.Failure? ==> l.state.sessions == s.sessions)
  {
    if connection.Success? {
      var connected := s.(sessions := s.sessions[job.id := connection.value]);
      SubmitUnknown(connected, job.id, JobWorkflow(job, randomSeed), submission, now);
    }
  }

  lemma SubmitUnknown(s: Snapshot, id: string, workflow: Workflow, submission: Result<string, Exception>, now: int)
    requires id !in s.jobs
    ensures Submit(s, id, workflow, submission, now) == Launched(s, Some(workflow), Some(NotFound(id)))
  {
  }

  class Server {
    const queue: JobQueue
    /** `jobWebSockets`: job id to backend session handle. */
    var sessions: map<string, nat>
    /** The session handles closed so far, in order. */
    var closed: seq<nat>

    ghost predicate Valid()
      reads this, queue
    {
      queue.Valid()
    }

    function State(): Snapshot
      reads this, queue
    {
      Snapshot(queue.jobs, queue.order, sessions, closed)
    }

    constructor(q: JobQueue)
      requires q.Valid()
      ensures Valid() && queue == q && sessions == map[] && closed == []
    {
      queue := q;
      sessions := map[];
      closed := [];
    }

    /** `ws.close(); jobWebSockets.delete(id)` when a session is recorded. */
    method Close(id: string)
      modifies this
      ensures State() == Release(old(State()), id)
    {
      if id in sessions {
        closed := closed + [sessions[id]];
        sessions := sessions - {id};
      }
    }

    /** `jobWebSockets.set(id, ws)`. */
    method Open(id: string, ws: nat)
      modifies this
      ensures State() == old(State()).(sessions := old(State()).sessions[id := ws])
    {
      sessions := sessions[id := ws];
    }

    /** `handleWebSocketMessage(jobId, message)`. */
    method HandleWebSocketMessage(jobId: string, msg: BackendMessage, now: int, history: HistoryReply, io: ImageIo)
      requires Valid() && (msg.Progress? ==> msg.max > 0)
      modifies this, queue
      ensures Valid()
      ensures State() == Dispatch(old(State()), jobId, msg, now, history, io)
    {
      var job := queue.GetJob(jobId);
      if job.None? {
        return;
      }
      match msg {
        case Progress(value, max) =>
          var r := queue.UpdateProgress(jobId, RoundDiv(100 * value, max), now);
        case Executing(node) =>
          if node.None? {
            var outcome := FetchOutcome(jobId, job.value.comfyPromptId, history, io);
            Finish(jobId, outcome, now);
          }
        case ExecutionError(m) =>
          var r := queue.SetFailed(jobId, NewError(Or(m, ExecutionFailed)), now);
          Close(jobId);
        case Other(_) =>
      }
    }

    /** Records the end of a finished run for a registered job. */
    method Finish(jobId: string, outcome: Result<Option<seq<ImageRef>>, Exception>, now: int)
      requires Valid() && jobId in queue.jobs
      modifies this, queue
      ensures Valid()
      ensures State() == Settle(old(State()), jobId, outcome, now)
    {
      match outcome {
        case Failure(e) =>
          var r := queue.SetFailed(jobId, e, now);
        case Success(None) =>
          var r := queue.SetFailed(jobId, NewError(NoOutputs), now);
          Close(jobId);
        case Success(Some(images)) =>
          var r := queue.SetCompleted(jobId, images, now);
          Close(jobId);
      }
    }

    /** The `catch` of `processJob`: `setFailed`, which throws for an
        unknown job, then the session cleanup. */
    method AbortJob(id: string, e: Exception, now: int, submitted: Option<Workflow>)
      returns (escaped: Option<Exception>)
      requires Valid()
      modifies this, queue
      ensures Valid()
      ensures Launched(State(), submitted, escaped) == Abort(old(State()), id, e, now, submitted)
    {
      var r := queue.SetFailed(id, e, now);
      if r.Failure? {
        return Some(r.error);
      }
      Close(id);
      escaped := None;
    }

    /** The `try` block of `processJob` from the submission on: mark the job
        processing under the returned prompt id, or fail it. */
    method SubmitJob(id: string, workflow: Workflow, submission: Result<string, Exception>, now: int)
      returns (escaped: Option<Exception>)
      requires Valid()
      modifies this, queue
      ensures Valid()
      ensures Launched(State(), Some(workflow), escaped) == Submit(old(State()), id, workflow, submission, now)
    {
      match submission {
        case Failure(e) =>
          escaped := AbortJob(id, e, now, Some(workflow));
        case Success(pid) =>
          var r := queue.SetProcessing(id, pid, now);
          if r.Failure? {
            escaped := AbortJob(id, r.error, now, Some(workflow));
          } else {
            escaped := None;
          }
      }
    }

    /** `processJob(job)`. */
    method ProcessJob(job: Job, randomSeed: nat, connection: Result<nat, Exception>,
                      submission: Result<string, Exception>, now: int)
      returns (submitted: Option<Workflow>, escaped: Option<Exception>)
      requires Valid() && randomSeed < SeedBound
      modifies this, queue
      ensures Valid()
      ensures Launched(State(), submitted, escaped) ==
        Launch(old(State()), job, randomSeed, connection, submission, now)
    {
      var workflow := BuildWorkflow(job, randomSeed);
      match connection {
        case Failure(e) =>
          submitted := None;
          escaped := AbortJob(job.id, e, now, submitted);
        case Success(ws) =>
          Open(job.id, ws);
          submitted := Some(workflow);
          escaped := SubmitJob(job.id, workflow, submission, now);
      }
    }
  }
}
