/** The in-memory job registry (`JobQueue`): a map from job id to job record,
    kept in insertion order as a JavaScript `Map` is, with the status helpers
    the server calls, the listing queries and the sweep that drops completed
    jobs older than an hour. */
module Jobs {
  import opened Values

  datatype Status = Queued | Processing | Completed | Failed

  /** An image saved for a job: the local file name, the URL it is served
      under, and the file name the backend gave it. */
  datatype ImageRef = ImageRef(filename: string, url: string, comfyFilename: string)

  /** A job record. Times are milliseconds since the epoch. */
  datatype Job = Job(
    id: string,
    prompt: string,
    options: map<string, Json>,
    status: Status,
    progress: int,
    createdAt: int,
    updatedAt: int,
    images: seq<ImageRef>,
    error: Option<string>,
    comfyPromptId: Option<string>)

  /** The fields an update supplies; `None` leaves a field as it is. */
  datatype Patch = Patch(
    status: Option<Status>,
    progress: Option<int>,
    images: Option<seq<ImageRef>>,
    error: Option<string>,
    comfyPromptId: Option<string>)

  /** One hour in milliseconds: completed jobs not updated for longer are swept. */
  const MaxAge: int := 60 * 60 * 1000

  /** The record `createJob` stores. */
  function NewJob(id: string, prompt: string, options: map<string, Json>, now: int): Job
  {
    Job(id, prompt, options, Queued, 0, now, now, [], None, None)
  }

  function Override<T>(given: Option<T>, current: T): T
  {
    if given.Some? then given.value else current
  }

  /** `Object.assign(job, updates, { updatedAt: now })`: the supplied fields
      are overwritten, `updatedAt` becomes `now`, every other field stays. */
  function Apply(job: Job, patch: Patch, now: int): (j: Job)
    ensures j.id == job.id && j.prompt == job.prompt && j.options == job.options
    ensures j.createdAt == job.createdAt && j.updatedAt == now
    ensures j.status == (if patch.status.Some? then patch.status.value else job.status)
    ensures j.progress == (if patch.progress.Some? then patch.progress.value else job.progress)
    ensures j.images == (if patch.images.Some? then patch.images.value else job.images)
    ensures patch.error.Some? ==> j.error == patch.error
    ensures patch.error.None? ==> j.error == job.error
    ensures patch.comfyPromptId.Some? ==> j.comfyPromptId == patch.comfyPromptId
    ensures patch.comfyPromptId.None? ==> j.comfyPromptId == job.comfyPromptId
  {
    job.(
      status := Override(patch.status, job.status),
      progress := Override(patch.progress, job.progress),
      images := Override(patch.images, job.images),
      error := if patch.error.Some? then patch.error else job.error,
      comfyPromptId := if patch.comfyPromptId.Some? then patch.comfyPromptId else job.comfyPromptId,
      updatedAt := now)
  }

  /** Applying the same update twice is the same as applying it once. */
  lemma ApplyIdempotent(job: Job, patch: Patch, now: int)
    ensures Apply(Apply(job, patch, now), patch, now) == Apply(job, patch, now)
  {
  }

  /** `setProcessing(id, promptId)`. */
  function ProcessingPatch(promptId: string): Patch
  {
    Patch(Some(Processing), None, None, None, Some(promptId))
  }

  /** `updateProgress(id, v)`: the progress clamped to [0, 100]. */
  function ProgressPatch(v: int): (p: Patch)
    ensures p.status.None? && p.images.None? && p.error.None? && p.comfyPromptId.None?
    ensures p.progress.Some? && 0 <= p.progress.value <= 100
    ensures 0 <= v <= 100 ==> p.progress == Some(v)
    ensures v < 0 ==> p.progress == Some(0)
    ensures v > 100 ==> p.progress == Some(100)
  {
    Patch(None, Some(Clamp(v, 0, 100)), None, None, None)
  }

  /** `setCompleted(id, images)`. */
  function CompletedPatch(images: seq<ImageRef>): Patch
  {
    Patch(Some(Completed), Some(100), Some(images), None, None)
  }

  /** `setFailed(id, error)`: the error's message, or its text. */
  function FailedPatch(e: Exception): Patch
  {
    Patch(Some(Failed), None, None, Some(Message(e)), None)
  }

  /** The error `updateJob` throws for an unknown id. */
  function NotFound(id: string): Exception
  {
    NewError("Job " + id + " not found")
  }

  /** The registry after `updateJob(id, patch)`: unchanged when `id` is unknown. */
  function Updated(jobs: map<string, Job>, id: string, patch: Patch, now: int): (r: map<string, Job>)
    ensures r.Keys == jobs.Keys
    ensures forall k :: k in jobs && k != id ==> r[k] == jobs[k]
    ensures id in jobs ==> r[id] == Apply(jobs[id], patch, now)
    ensures id !in jobs ==> r == jobs
  {
    if id in jobs then jobs[id := Apply(jobs[id], patch, now)] else jobs
  }

  /** A job the sweep deletes: completed and not updated for over an hour. */
  predicate Stale(job: Job, now: int)
  {
    job.status == Completed && job.updatedAt < now - MaxAge
  }

  /** The registry after the sweep. */
  function Prune(jobs: map<string, Job>, now: int): (r: map<string, Job>)
    ensures r.Keys <= jobs.Keys
    ensures forall k :: k in jobs ==> (k in r <==> !Stale(jobs[k], now))
    ensures forall k :: k in r ==> r[k] == jobs[k]
  {
    map k | k in jobs && !Stale(jobs[k], now) :: jobs[k]
  }

  /** The sweep keeps queued, processing and failed jobs of any age, and
      completed jobs updated within the last hour. */
  lemma PruneKeepsUnfinished(jobs: map<string, Job>, now: int, id: string)
    requires id in jobs && (jobs[id].status != Completed || jobs[id].updatedAt >= now - MaxAge)
    ensures id in Prune(jobs, now) && Prune(jobs, now)[id] == jobs[id]
  {
  }

  /** Sweeping twice at the same time deletes nothing more. */
  lemma PruneIdempotent(jobs: map<string, Job>, now: int)
    ensures Prune(Prune(jobs, now), now) == Prune(jobs, now)
  {
  }

  predicate Distinct(s: seq<string>)
  {
    forall i, j :: 0 <= i < j < |s| ==> s[i] != s[j]
  }

  /** `s` without `x`. */
  function Without(s: seq<string>, x: string): (r: seq<string>)
    ensures x !in r
    ensures forall y :: y in r <==> y in s && y != x
    ensures Distinct(s) ==> Distinct(r)
  {
    if s == [] then []
    else if s[0] == x then Without(s[1..], x)
    else
      var rest := Without(s[1..], x);
      assert Distinct(s) ==> s[0] !in s[1..];
      [s[0]] + rest
  }

  lemma {:induction false} WithoutAbsent(s: seq<string>, x: string)
    requires x !in s
    ensures Without(s, x) == s
  {
    if s != [] {
      WithoutAbsent(s[1..], x);
    }
  }

  lemma {:induction false} WithoutAppend(a: seq<string>, b: seq<string>, x: string)
    ensures Without(a + b, x) == Without(a, x) + Without(b, x)
  {
    if a == [] {
      assert a + b == b;
    } else {
      assert (a + b)[1..] == a[1..] + b;
      WithoutAppend(a[1..], b, x);
    }
  }

  /** The keys of `keys` whose job survives the sweep, in order. */
  function Survivors(keys: seq<string>, jobs: map<string, Job>, now: int): (r: seq<string>)
    requires forall k :: k in keys ==> k in jobs
    ensures |r| <= |keys|
    ensures forall k :: k in r <==> k in keys && !Stale(jobs[k], now)
    ensures Distinct(keys) ==> Distinct(r)
  {
    if keys == [] then []
    else if Stale(jobs[keys[0]], now) then Survivors(keys[1..], jobs, now)
    else [keys[0]] + Survivors(keys[1..], jobs, now)
  }

  lemma {:induction false} SurvivorsAppend(a: seq<string>, k: string, jobs: map<string, Job>, now: int)
    requires forall x :: x in a ==> x in jobs
    requires k in jobs
    ensures Survivors(a + [k], jobs, now) ==
      Survivors(a, jobs, now) + (if Stale(jobs[k], now) then [] else [k])
  {
    if a == [] {
      assert a + [k] == [k];
    } else {
      assert (a + [k])[1..] == a[1..] + [k];
      SurvivorsAppend(a[1..], k, jobs, now);
    }
  }

  /** A sequence without repetitions has as many elements as its set. */
  lemma {:induction false} DistinctCard(s: seq<string>)
    requires Distinct(s)
    ensures |set x | x in s| == |s|
  {
    if s != [] {
      DistinctCard(s[1..]);
      assert (set x | x in s) == (set x | x in s[1..]) + {s[0]};
    }
  }

  /** The jobs stored under `keys`, in that order. */
  function Lookup(keys: seq<string>, jobs: map<string, Job>): (r: seq<Job>)
    requires forall k :: k in keys ==> k in jobs
    ensures |r| == |keys|
    ensures forall i :: 0 <= i < |keys| ==> r[i] == jobs[keys[i]]
  {
    if keys == [] then [] else [jobs[keys[0]]] + Lookup(keys[1..], jobs)
  }

  /** Newest first: `createdAt` never increases along the sequence. */
  predicate NewestFirst(s: seq<Job>)
  {
    forall i, j :: 0 <= i < j < |s| ==> s[i].createdAt >= s[j].createdAt
  }

  lemma NotNewer(r: seq<Job>, s: seq<Job>, bound: int)
    requires multiset(r) == multiset(s)
    requires forall j :: 0 <= j < |s| ==> s[j].createdAt <= bound
    ensures forall j :: 0 <= j < |r| ==> r[j].createdAt <= bound
  {
    forall j | 0 <= j < |r|
      ensures r[j].createdAt <= bound
    {
      assert r[j] in multiset(s);
    }
  }

  /** A job no older than every member of a newest-first sequence can lead it. */
  lemma ConsSorted(x: Job, rest: seq<Job>)
    requires NewestFirst(rest)
    requires forall j :: 0 <= j < |rest| ==> rest[j].createdAt <= x.createdAt
    ensures NewestFirst([x] + rest)
  {
  }

  /** Puts `x` in front of the first job not newer than it. */
  function Insert(x: Job, s: seq<Job>): (r: seq<Job>)
    requires NewestFirst(s)
    ensures NewestFirst(r)
    ensures multiset(r) == multiset(s) + multiset{x}
  {
    if s == [] || s[0].createdAt <= x.createdAt then [x] + s
    else
      var rest := Insert(x, s[1..]);
      assert s == [s[0]] + s[1..];
      NotNewer(rest, s[1..] + [x], s[0].createdAt);
      ConsSorted(s[0], rest);
      [s[0]] + rest
  }

  /** `sort((a, b) => b.createdAt - a.createdAt)`: a stable sort, newest first,
      jobs created at the same time keeping their order. */
  function SortNewestFirst(s: seq<Job>): (r: seq<Job>)
    ensures NewestFirst(r)
    ensures multiset(r) == multiset(s)
  {
    if s == [] then []
    else
      assert s == [s[0]] + s[1..];
      Insert(s[0], SortNewestFirst(s[1..]))
  }

  /** `filter(job => job.status === status)`. */
  function WithStatus(s: seq<Job>, status: Status): (r: seq<Job>)
    ensures forall x :: multiset(r)[x] == if x.status == status then multiset(s)[x] else 0
  {
    if s == [] then []
    else
      assert s == [s[0]] + s[1..];
      if s[0].status == status then [s[0]] + WithStatus(s[1..], status)
      else WithStatus(s[1..], status)
  }

  /** Filtering keeps a sequence newest first. */
  lemma {:induction false} WithStatusSorted(s: seq<Job>, status: Status)
    requires NewestFirst(s)
    ensures NewestFirst(WithStatus(s, status))
  {
    if s != [] {
      var rest := WithStatus(s[1..], status);
      WithStatusSorted(s[1..], status);
      if s[0].status == status {
        forall j | 0 <= j < |rest|
          ensures rest[j].createdAt <= s[0].createdAt
        {
          assert rest[j] in multiset(s[1..]);
        }
        ConsSorted(s[0], rest);
      }
    }
  }

  /** A job no older than the first of a newest-first sequence goes in
      front, before and after filtering. */
  lemma InsertFront(x: Job, s: seq<Job>, status: Status)
    requires NewestFirst(s) && (s == [] || s[0].createdAt <= x.createdAt)
    ensures Insert(x, s) == [x] + s
    ensures NewestFirst(WithStatus(s, status))
    ensures Insert(x, WithStatus(s, status)) == [x] + WithStatus(s, status)
  {
    WithStatusSorted(s, status);
    var w := WithStatus(s, status);
    if w != [] {
      assert w[0] in multiset(s);
    }
  }

  /** Filtering commutes with inserting into a newest-first sequence. */
  lemma {:induction false} WithStatusInsert(x: Job, s: seq<Job>, status: Status)
    requires NewestFirst(s)
    ensures NewestFirst(WithStatus(s, status))
    ensures WithStatus(Insert(x, s), status) ==
      if x.status == status then Insert(x, WithStatus(s, status)) else WithStatus(s, status)
    decreases |s|
  {
    WithStatusSorted(s, status);
    if s == [] || s[0].createdAt <= x.createdAt {
      InsertFront(x, s, status);
      assert ([x] + s)[0] == x && ([x] + s)[1..] == s;
    } else {
      InsertBehind(x, s, status);
    }
  }

  lemma InsertUnfold(x: Job, t: seq<Job>)
    requires NewestFirst(t) && t != [] && t[0].createdAt > x.createdAt
    ensures Insert(x, t) == [t[0]] + Insert(x, t[1..])
  {
  }

  lemma WithStatusUnfold(t: seq<Job>, status: Status)
    requires t != []
    ensures WithStatus(t, status) ==
      if t[0].status == status then [t[0]] + WithStatus(t[1..], status) else WithStatus(t[1..], status)
  {
  }

  /** The recursive case: a job older than the first goes behind it. */
  lemma {:induction false} InsertBehind(x: Job, s: seq<Job>, status: Status)
    requires NewestFirst(s) && s != [] && s[0].createdAt > x.createdAt
    ensures NewestFirst(WithStatus(s, status))
    ensures WithStatus(Insert(x, s), status) ==
      if x.status == status then Insert(x, WithStatus(s, status)) else WithStatus(s, status)
    decreases |s|, 0
  {
    WithStatusSorted(s, status);
    var rest := Insert(x, s[1..]);
    var u := [s[0]] + rest;
    InsertUnfold(x, s);
    assert u[0] == s[0] && u[1..] == rest;
    WithStatusUnfold(u, status);
    WithStatusUnfold(s, status);
    WithStatusInsert(x, s[1..], status);
    var w1 := WithStatus(s[1..], status);
    if s[0].status == status && x.status == status {
      var v := [s[0]] + w1;
      assert v[0] == s[0] && v[1..] == w1;
      InsertUnfold(x, v);
    }
  }

  /** Filtering then sorting gives the same sequence as sorting then
      filtering: the sort is stable, so the jobs of one status keep their
      relative order either way. */
  lemma {:induction false} SortWithStatus(s: seq<Job>, status: Status)
    ensures WithStatus(SortNewestFirst(s), status) == SortNewestFirst(WithStatus(s, status))
  {
    if s != [] {
      var sorted := SortNewestFirst(s[1..]);
      SortWithStatus(s[1..], status);
      WithStatusInsert(s[0], sorted, status);
      WithStatusUnfold(s, status);
      if s[0].status == status {
        var v := [s[0]] + WithStatus(s[1..], status);
        assert v[0] == s[0] && v[1..] == WithStatus(s[1..], status);
      }
    }
  }

  /** Jobs stored under distinct keys, each under its own id, are distinct
      values, so each occurs once. */
  lemma {:induction false} LookupOnce(keys: seq<string>, jobs: map<string, Job>, k: string)
    requires Distinct(keys) && k in jobs
    requires forall x :: x in jobs ==> jobs[x].id == x
    requires forall x :: x in keys ==> x in jobs
    ensures multiset(Lookup(keys, jobs))[jobs[k]] == if k in keys then 1 else 0
  {
    if keys != [] {
      var tail := keys[1..];
      assert Distinct(tail);
      assert keys[0] !in tail;
      LookupOnce(tail, jobs, k);
      assert Lookup(keys, jobs) == [jobs[keys[0]]] + Lookup(tail, jobs);
      assert jobs[keys[0]] == jobs[k] <==> keys[0] == k by {
        assert jobs[keys[0]].id == keys[0] && jobs[k].id == k;
      }
      assert k in keys <==> k == keys[0] || k in tail;
    }
  }

  /** A reordering of the registry's records holds each stored record once and
      nothing else. */
  lemma ListedOnce(keys: seq<string>, jobs: map<string, Job>, all: seq<Job>)
    requires Distinct(keys)
    requires forall k :: k in jobs <==> k in keys
    requires forall k :: k in jobs ==> jobs[k].id == k
    requires multiset(all) == multiset(Lookup(keys, jobs))
    ensures forall k :: k in jobs ==> multiset(all)[jobs[k]] == 1
    ensures forall x :: x in all ==> x.id in jobs && jobs[x.id] == x
    ensures |all| == |jobs|
  {
    forall k | k in jobs
      ensures multiset(all)[jobs[k]] == 1
    {
      LookupOnce(keys, jobs, k);
    }
    forall x | x in all
      ensures x.id in jobs && jobs[x.id] == x
    {
      assert x in multiset(all);
      LookupMembers(keys, jobs, x);
    }
    ListedCount(keys, jobs, all);
  }

  lemma ListedCount(keys: seq<string>, jobs: map<string, Job>, all: seq<Job>)
    requires Distinct(keys)
    requires forall k :: k in jobs <==> k in keys
    requires multiset(all) == multiset(Lookup(keys, jobs))
    ensures |all| == |jobs|
  {
    assert |all| == |keys| by {
      assert |multiset(all)| == |multiset(Lookup(keys, jobs))|;
    }
    KeysCard(jobs, keys);
  }

  /** Every job listed from the registry is the one stored under its id. */
  lemma LookupMembers(keys: seq<string>, jobs: map<string, Job>, x: Job)
    requires forall y :: y in jobs ==> jobs[y].id == y
    requires forall y :: y in keys ==> y in jobs
    requires x in multiset(Lookup(keys, jobs))
    ensures x.id in keys && x.id in jobs && jobs[x.id] == x
  {
    var r := Lookup(keys, jobs);
    assert x in r;
    var i :| 0 <= i < |r| && r[i] == x;
    assert x == jobs[keys[i]];
  }

  /** Dropping `id` from the order of the sweep leaves the jobs before and
      after it. */
  lemma DropKey(kept: seq<string>, id: string, rest: seq<string>)
    requires id !in kept && id !in rest
    ensures Without(kept + ([id] + rest), id) == kept + rest
  {
    WithoutAppend(kept, [id] + rest, id);
    WithoutAppend([id], rest, id);
    WithoutAbsent(kept, id);
    WithoutAbsent(rest, id);
    assert Without([id], id) == [];
  }

  lemma DifferenceCard(a: set<string>, b: set<string>)
    requires b <= a
    ensures |a - b| == |a| - |b|
  {
    assert a == (a - b) + b;
    assert (a - b) * b == {};
  }

  /** One step of the sweep over the snapshot `keys`: the order after
      visiting `keys[i]` is the survivors of `keys[..i + 1]` followed by the
      keys not yet visited. */
  lemma SweepStep(keys: seq<string>, i: nat, start: map<string, Job>, now: int, order: seq<string>)
    requires i < |keys| && Distinct(keys)
    requires forall k :: k in keys ==> k in start
    requires order == Survivors(keys[..i], start, now) + keys[i..]
    ensures keys[i] in order
    ensures Stale(start[keys[i]], now) ==>
      Without(order, keys[i]) == Survivors(keys[..i + 1], start, now) + keys[i + 1..]
    ensures !Stale(start[keys[i]], now) ==>
      order == Survivors(keys[..i + 1], start, now) + keys[i + 1..]
  {
    SplitAt(keys, i);
    if Stale(start[keys[i]], now) {
      SweepDrops(keys, i, start, now, order);
    } else {
      SweepKeeps(keys, i, start, now, order);
    }
  }

  lemma SweepDrops(keys: seq<string>, i: nat, start: map<string, Job>, now: int, order: seq<string>)
    requires i < |keys| && Distinct(keys)
    requires forall k :: k in keys ==> k in start
    requires order == Survivors(keys[..i], start, now) + keys[i..]
    requires Stale(start[keys[i]], now)
    ensures Without(order, keys[i]) == Survivors(keys[..i + 1], start, now) + keys[i + 1..]
  {
    var id := keys[i];
    var kept := Survivors(keys[..i], start, now);
    SplitAt(keys, i);
    SurvivorsAppend(keys[..i], id, start, now);
    DropKey(kept, id, keys[i + 1..]);
    assert kept + [] == kept;
  }

  lemma SweepKeeps(keys: seq<string>, i: nat, start: map<string, Job>, now: int, order: seq<string>)
    requires i < |keys| && Distinct(keys)
    requires forall k :: k in keys ==> k in start
    requires order == Survivors(keys[..i], start, now) + keys[i..]
    requires !Stale(start[keys[i]], now)
    ensures order == Survivors(keys[..i + 1], start, now) + keys[i + 1..]
  {
    var id := keys[i];
    var kept := Survivors(keys[..i], start, now);
    SplitAt(keys, i);
    var rest := keys[i + 1..];
    assert Survivors(keys[..i + 1], start, now) == kept + [id] by {
      SurvivorsAppend(keys[..i], id, start, now);
    }
    assert order == kept + ([id] + rest);
    AppendAssoc(kept, [id], rest);
  }

  lemma AppendAssoc(a: seq<string>, b: seq<string>, c: seq<string>)
    ensures a + (b + c) == (a + b) + c
  {
  }

  /** Cutting a sequence without repetitions around its element `i`. */
  lemma SplitAt(keys: seq<string>, i: nat)
    requires i < |keys| && Distinct(keys)
    ensures keys[..i + 1] == keys[..i] + [keys[i]]
    ensures keys[i..] == [keys[i]] + keys[i + 1..]
    ensures keys[i] !in keys[..i] && keys[i] !in keys[i + 1..]
  {
  }

  lemma SweepCount(keys: seq<string>, i: nat, start: map<string, Job>, now: int)
    requires i < |keys|
    requires forall k :: k in keys ==> k in start
    ensures |Survivors(keys[..i + 1], start, now)| ==
      |Survivors(keys[..i], start, now)| + (if Stale(start[keys[i]], now) then 0 else 1)
  {
    assert keys[..i + 1] == keys[..i] + [keys[i]];
    SurvivorsAppend(keys[..i], keys[i], start, now);
  }

  /** A registry whose order lists its keys without repetition has as many
      records as the order has ids. */
  lemma KeysCard(m: map<string, Job>, keys: seq<string>)
    requires Distinct(keys)
    requires forall k :: k in m <==> k in keys
    ensures |m| == |keys| && |m.Keys| == |keys|
  {
    DistinctCard(keys);
    assert (set x | x in keys) == m.Keys;
  }

  /** After the sweep has visited every key, the registry is the pruned one
      and the count is the number of records deleted. */
  lemma SweepDone(start: map<string, Job>, jobs: map<string, Job>, keys: seq<string>, order: seq<string>, now: int)
    requires Distinct(keys) && Distinct(order)
    requires forall k :: k in start <==> k in keys
    requires forall k :: k in jobs <==> k in order
    requires order == Survivors(keys, start, now)
    requires forall k :: k in jobs ==> k in start && jobs[k] == start[k]
    ensures jobs == Prune(start, now)
    ensures |keys| - |order| == |start| - |jobs| == |start.Keys - jobs.Keys|
  {
    assert jobs == Prune(start, now);
    KeysCard(start, keys);
    KeysCard(jobs, order);
    DifferenceCard(start.Keys, jobs.Keys);
  }

  class JobQueue {
    /** Job id to job record. */
    var jobs: map<string, Job>
    /** The ids in insertion order (the iteration order of the `Map`). */
    var order: seq<string>

    ghost predicate Valid()
      reads this
    {
      && (forall k :: k in jobs <==> k in order)
      && Distinct(order)
      && (forall k :: k in jobs ==> jobs[k].id == k)
    }

    constructor()
      ensures Valid() && jobs == map[] && order == []
    {
      jobs := map[];
      order := [];
    }

    /** `createJob(id, prompt, options)`: stores a fresh queued record, replacing
        any record under the same id (which keeps its place in the order). */
    method CreateJob(id: string, prompt: string, options: map<string, Json>, now: int) returns (job: Job)
      requires Valid()
      modifies this
      ensures Valid()
      ensures job == NewJob(id, prompt, options, now)
      ensures jobs == old(jobs)[id := job]
      ensures order == if id in old(jobs) then old(order) else old(order) + [id]
    {
      job := NewJob(id, prompt, options, now);
      if id !in jobs {
        order := order + [id];
      }
      jobs := jobs[id := job];
    }

    /** `updateJob(id, updates)`: throws "Job <id> not found" for an unknown id,
        otherwise overwrites the supplied fields and `updatedAt`. */
    method UpdateJob(id: string, patch: Patch, now: int) returns (r: Result<Job, Exception>)
      requires Valid()
      modifies this
      ensures Valid()
      ensures jobs == Updated(old(jobs), id, patch, now) && order == old(order)
      ensures id !in old(jobs) ==> r == Failure(NotFound(id))
      ensures id in old(jobs) ==> r == Success(Apply(old(jobs)[id], patch, now))
    {
      if id !in jobs {
        return Failure(NotFound(id));
      }
      var job := Apply(jobs[id], patch, now);
      jobs := jobs[id := job];
      r := Success(job);
    }

    method SetProcessing(id: string, promptId: string, now: int) returns (r: Result<Job, Exception>)
      requires Valid()
      modifies this
      ensures Valid()
      ensures jobs == Updated(old(jobs), id, ProcessingPatch(promptId), now) && order == old(order)
      ensures id !in old(jobs) ==> r == Failure(NotFound(id))
      ensures id in old(jobs) ==> r == Success(Apply(old(jobs)[id], ProcessingPatch(promptId), now))
    {
      r := UpdateJob(id, ProcessingPatch(promptId), now);
    }

    method UpdateProgress(id: string, progress: int, now: int) returns (r: Result<Job, Exception>)
      requires Valid()
      modifies this
      ensures Valid()
      ensures jobs == Updated(old(jobs), id, ProgressPatch(progress), now) && order == old(order)
      ensures id !in old(jobs) ==> r == Failure(NotFound(id))
      ensures id in old(jobs) ==> r == Success(Apply(old(jobs)[id], ProgressPatch(progress), now))
    {
      r := UpdateJob(id, ProgressPatch(progress), now);
    }

    method SetCompleted(id: string, images: seq<ImageRef>, now: int) returns (r: Result<Job, Exception>)
      requires Valid()
      modifies this
      ensures Valid()
      ensures jobs == Updated(old(jobs), id, CompletedPatch(images), now) && order == old(order)
      ensures id !in old(jobs) ==> r == Failure(NotFound(id))
      ensures id in old(jobs) ==> r == Success(Apply(old(jobs)[id], CompletedPatch(images), now))
    {
      r := UpdateJob(id, CompletedPatch(images), now);
    }

    method SetFailed(id: string, e: Exception, now: int) returns (r: Result<Job, Exception>)
      requires Valid()
      modifies this
      ensures Valid()
      ensures jobs == Updated(old(jobs), id, FailedPatch(e), now) && order == old(order)
      ensures id !in old(jobs) ==> r == Failure(NotFound(id))
      ensures id in old(jobs) ==> r == Success(Apply(old(jobs)[id], FailedPatch(e), now))
    {
      r := UpdateJob(id, FailedPatch(e), now);
    }

    /** `getJob(id)`: the record, or `undefined`. */
    function GetJob(id: string): (r: Option<Job>)
      reads this
      requires Valid()
      ensures r.Some? <==> id in jobs
      ensures r.Some? ==> r.value == jobs[id] && r.value.id == id
    {
      if id in jobs then Some(jobs[id]) else None
    }

    /** The records in insertion order (`Array.from(this.jobs.values())`). */
    function Records(): (r: seq<Job>)
      reads this
      requires Valid()
    {
      Lookup(order, jobs)
    }

    /** `getAllJobs()`: every record, newest first. */
    function GetAllJobs(): (r: seq<Job>)
      reads this
      requires Valid()
      ensures NewestFirst(r) && multiset(r) == multiset(Records())
    {
      SortNewestFirst(Records())
    }

    /** `getJobsByStatus(status)`: the records with that status, newest first. */
    function GetJobsByStatus(status: Status): (r: seq<Job>)
      reads this
      requires Valid()
      ensures NewestFirst(r) && multiset(r) == multiset(WithStatus(Records(), status))
    {
      SortNewestFirst(WithStatus(Records(), status))
    }

    /** The listing by status is the full listing with the other statuses
        left out, in the same order. */
    lemma ByStatusIsFilteredListing(status: Status)
      requires Valid()
      ensures GetJobsByStatus(status) == WithStatus(GetAllJobs(), status)
    {
      SortWithStatus(Records(), status);
    }

    /** The listing holds every stored record exactly once and nothing else. */
    lemma AllJobsExactlyOnce()
      requires Valid()
      ensures forall k :: k in jobs ==> multiset(GetAllJobs())[jobs[k]] == 1
      ensures forall x :: x in GetAllJobs() ==> x.id in jobs && jobs[x.id] == x
      ensures |GetAllJobs()| == |jobs|
    {
      ListedOnce(order, jobs, GetAllJobs());
    }

    /** The status listing holds exactly the stored records with that status,
        each once. */
    lemma JobsByStatusExact(status: Status)
      requires Valid()
      ensures forall k :: k in jobs ==>
        multiset(GetJobsByStatus(status))[jobs[k]] == if jobs[k].status == status then 1 else 0
      ensures forall x :: x in GetJobsByStatus(status) ==>
        x.status == status && x.id in jobs && jobs[x.id] == x
    {
      forall k | k in jobs
        ensures multiset(GetJobsByStatus(status))[jobs[k]] == if jobs[k].status == status then 1 else 0
      {
        LookupOnce(order, jobs, k);
      }
      forall x | x in GetJobsByStatus(status)
        ensures x.status == status && x.id in jobs && jobs[x.id] == x
      {
        assert x in multiset(GetJobsByStatus(status));
        assert x in multiset(Records());
        LookupMembers(order, jobs, x);
      }
    }

    /** `this.jobs.delete(id)`. */
    method Delete(id: string)
      requires Valid()
      modifies this
      ensures Valid()
      ensures jobs == old(jobs) - {id} && order == Without(old(order), id)
    {
      jobs := jobs - {id};
      order := Without(order, id);
    }

    /** `cleanOldJobs()`: walks the records in order and deletes every stale
        one, returning how many it deleted. */
    method CleanOldJobs(now: int) returns (cleaned: nat)
      requires Valid()
      modifies this
      ensures Valid()
      ensures jobs == Prune(old(jobs), now)
      ensures order == Survivors(old(order), old(jobs), now)
      ensures cleaned == |old(jobs)| - |jobs| == |old(jobs).Keys - jobs.Keys|
    {
      var keys := order;
      ghost var start := jobs;
      var i := 0;
      cleaned := 0;
      while i < |keys|
        invariant 0 <= i <= |keys|
        invariant Valid()
        invariant order == Survivors(keys[..i], start, now) + keys[i..]
        invariant forall k :: k in jobs ==> k in start && jobs[k] == start[k]
        invariant cleaned == i - |Survivors(keys[..i], start, now)|
      {
        var id := keys[i];
        SweepStep(keys, i, start, now, order);
        SweepCount(keys, i, start, now);
        var job := jobs[id];
        if job.status == Completed && job.updatedAt < now - MaxAge {
          Delete(id);
          cleaned := cleaned + 1;
        }
        i := i + 1;
      }
      assert keys[..i] == keys;
      SweepDone(start, jobs, keys, order, now);
    }
  }
}
