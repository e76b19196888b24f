/** The disk job fence of a storage: the protocol that gives one job exclusive
    access to the storage. The class mirrors aux::disk_job_fence; the functions
    beside it are the same transitions on values, and module DiskJobFenceRuns
    reasons about every run of them. */
module DiskJobFence {

  /** A job as the fence sees it. */
  datatype Entry = Entry(id: nat, fence: bool)

  /** hasFence counts the fences blocked or running, outstanding the jobs in progress. */
  datatype State = State(hasFence: int, outstanding: int, blocked: seq<Entry>)

  /** The state after a completion, and the jobs it put in progress. */
  datatype Completion = Completion(state: State, released: seq<Entry>)

  datatype Post = PostFence | PostFlush | PostNone

  /** The number of queued jobs ahead of the first queued fence. */
  function Leading(q: seq<Entry>): (n: nat)
    ensures n <= |q|
    ensures forall i :: 0 <= i < n ==> !q[i].fence
    ensures n < |q| ==> q[n].fence
  {
    if q == [] || q[0].fence then 0 else 1 + Leading(q[1..])
  }

  /** A fence job completed: the fence is lowered and the queue is released up to the
      next fence. extra is the number of jobs already in the caller's queue. */
  function AfterFence(s: State, extra: nat): Completion {
    var n := Leading(s.blocked);
    var left := s.outstanding - 1 + n;
    if n < |s.blocked| && left == 0 && n + extra == 0 then
      Completion(State(s.hasFence - 1, 1, s.blocked[1..]), s.blocked[..1])
    else
      Completion(State(s.hasFence - 1, left, s.blocked[n..]), s.blocked[..n])
  }

  /** An ordinary job completed: if it was the last one a raised fence waited for,
      the fence job at the head of the queue is put in progress. */
  function AfterOrdinary(s: State): Completion {
    var left := s.outstanding - 1;
    if left > 0 || s.hasFence == 0 || s.blocked == [] then
      Completion(s.(outstanding := left), [])
    else
      Completion(State(s.hasFence, left + 1, s.blocked[1..]), s.blocked[..1])
  }

  function AfterComplete(s: State, fence: bool, extra: nat): Completion {
    if fence then AfterFence(s, extra) else AfterOrdinary(s)
  }

  function AfterSubmit(s: State, id: nat): State {
    if s.hasFence == 0 then s.(outstanding := s.outstanding + 1)
    else s.(blocked := s.blocked + [Entry(id, false)])
  }

  function RaiseOutcome(s: State): Post {
    if s.hasFence == 0 && s.outstanding == 0 then PostFence
    else if s.hasFence == 0 then PostFlush
    else PostNone
  }

  function AfterRaise(s: State, id: nat, flush: Entry): State {
    match RaiseOutcome(s)
    case PostFence => State(1, 1, s.blocked)
    case PostFlush => State(1, s.outstanding + 1, s.blocked + [Entry(id, true)])
    case PostNone => State(s.hasFence + 1, s.outstanding, s.blocked + [flush, Entry(id, true)])
  }

  /** What is taken off the front of the queue when a fence is lowered: everything up to the
      next fence; or just that fence, if it is first and nothing is in progress or about to
      be issued. */
  predicate UpToFence(blocked: seq<Entry>, n: nat, idle: bool)
    requires n <= |blocked|
  {
    if blocked != [] && blocked[0].fence && idle then n == 1
    else (forall i :: 0 <= i < n ==> !blocked[i].fence) && (n < |blocked| ==> blocked[n].fence)
  }

  /** The part of disk_io_job the fence reads and writes. */
  class DiskIoJob {
    const id: nat
    var fence: bool
    var inProgress: bool

    constructor (id: nat)
      ensures this.id == id && !fence && !inProgress
    {
      this.id := id;
      fence, inProgress := false, false;
    }
  }

  class Fence {
    var hasFence: int
    var outstandingJobs: int
    var blockedJobs: seq<DiskIoJob>
    ghost var queue: seq<Entry>  // what blockedJobs holds

    constructor ()
      ensures Valid()
      ensures View() == State(0, 0, [])
    {
      hasFence, outstandingJobs, blockedJobs, queue := 0, 0, [], [];
    }

    /** No job is queued twice and no queued job is in progress. */
    ghost predicate Valid()
      reads this, blockedJobs
    {
      && 0 <= hasFence
      && 0 <= outstandingJobs
      && (forall i, k :: 0 <= i < k < |blockedJobs| ==> blockedJobs[i] != blockedJobs[k])
      && (forall i :: 0 <= i < |blockedJobs| ==> !blockedJobs[i].inProgress)
      && |queue| == |blockedJobs|
      && (forall i :: 0 <= i < |queue| ==> queue[i] == Entry(blockedJobs[i].id, blockedJobs[i].fence))
    }

    ghost function View(): (s: State)
      reads this
    {
      State(hasFence, outstandingJobs, queue)
    }

    method IsBlocked(j: DiskIoJob) returns (blocked: bool)
      requires Valid()
      requires !j.inProgress && !j.fence && j !in blockedJobs
      modifies this, j`inProgress
      ensures Valid()
      ensures View() == AfterSubmit(old(View()), j.id)
      ensures blocked <==> old(hasFence) != 0
      ensures hasFence == old(hasFence) && outstandingJobs == old(outstandingJobs) + (if blocked then 0 else 1)
      ensures j.inProgress == !blocked
      ensures blocked ==> blockedJobs == old(blockedJobs) + [j]
      ensures !blocked ==> blockedJobs == old(blockedJobs)
    {
      if hasFence == 0 {
        j.inProgress := true;
        outstandingJobs := outstandingJobs + 1;
        return false;
      }
      blockedJobs := blockedJobs + [j];
      queue := queue + [Entry(j.id, false)];
      return true;
    }

    method RaiseFence(j: DiskIoJob, fj: DiskIoJob) returns (post: Post)
      requires Valid()
      requires j != fj && j !in blockedJobs && fj !in blockedJobs
      requires !j.inProgress && !j.fence && !fj.inProgress && !fj.fence
      modifies this, j, fj`inProgress
      ensures Valid()
      ensures View() == AfterRaise(old(View()), j.id, Entry(fj.id, false))
      ensures post == RaiseOutcome(old(View()))
      ensures post == PostFence <==> old(hasFence) == 0 && old(outstandingJobs) == 0
      ensures post == PostNone <==> old(hasFence) > 0
      ensures hasFence == old(hasFence) + 1
      ensures outstandingJobs == old(outstandingJobs) + (if post == PostNone then 0 else 1)
      ensures j.fence
      ensures j.inProgress <==> post == PostFence
      ensures fj.inProgress <==> post == PostFlush
      ensures blockedJobs == match post
                case PostFence => old(blockedJobs)
                case PostFlush => old(blockedJobs) + [j]
                case PostNone => old(blockedJobs) + [fj, j]
    {
      j.fence := true;
      if hasFence == 0 && outstandingJobs == 0 {
        hasFence := hasFence + 1;
        j.inProgress := true;
        outstandingJobs := outstandingJobs + 1;
        return PostFence;
      }
      hasFence := hasFence + 1;
      if hasFence > 1 {
        blockedJobs := blockedJobs + [fj];
        queue := queue + [Entry(fj.id, false)];
      } else {
        fj.inProgress := true;
        outstandingJobs := outstandingJobs + 1;
      }
      blockedJobs := blockedJobs + [j];
      queue := queue + [Entry(j.id, true)];
      post := if hasFence > 1 then PostNone else PostFlush;
    }

    /** Takes the job at the head of the queue and puts it in progress. */
    method IssueHead() returns (bj: DiskIoJob)
      requires Valid() && blockedJobs != []
      modifies this`outstandingJobs, this`blockedJobs, this`queue, blockedJobs`inProgress
      ensures Valid()
      ensures bj == old(blockedJobs)[0] && bj.inProgress
      ensures blockedJobs == old(blockedJobs)[1..] && queue == old(queue)[1..]
      ensures outstandingJobs == old(outstandingJobs) + 1
    {
      bj := blockedJobs[0];
      blockedJobs, queue := blockedJobs[1..], queue[1..];
      bj.inProgress := true;
      outstandingJobs := outstandingJobs + 1;
    }

    /** The first n jobs of what was queued were put in progress. */
    ghost predicate Drained(was: seq<DiskIoJob>, entries: seq<Entry>, n: nat, outstanding: int)
      reads this, blockedJobs, was
    {
      && n <= |was| == |entries| && Valid()
      && blockedJobs == was[n..] && queue == entries[n..]
      && outstandingJobs == outstanding + n
      && (forall i :: 0 <= i < n ==> was[i].inProgress)
      && (forall i, k :: 0 <= i < k < |was| ==> was[i] != was[k])
    }

    /** Puts the next one in progress. */
    method IssueNext(ghost was: seq<DiskIoJob>, ghost entries: seq<Entry>, ghost n: nat, ghost outstanding: int)
        returns (bj: DiskIoJob)
      requires Drained(was, entries, n, outstanding) && blockedJobs != []
      modifies this`outstandingJobs, this`blockedJobs, this`queue, blockedJobs`inProgress
      ensures n < |was| && bj == was[n] && Drained(was, entries, n + 1, outstanding)
    {
      bj := IssueHead();
    }

    lemma DrainedHead(was: seq<DiskIoJob>, entries: seq<Entry>, n: nat, outstanding: int)
      requires Drained(was, entries, n, outstanding)
      ensures Valid() && outstandingJobs == outstanding + n && n <= |was| == |entries|
      ensures blockedJobs == was[n..]
      ensures blockedJobs != [] ==> blockedJobs[0] == was[n] && entries[n] == Entry(was[n].id, was[n].fence)
    {
      assert blockedJobs != [] ==> queue[0] == entries[n];
    }

    /** The loop that issues the backlog after a fence was lowered. */
    method ReleaseBacklog(jobs: seq<DiskIoJob>) returns (ret: nat, jobs': seq<DiskIoJob>)
      requires Valid()
      requires forall b :: b in blockedJobs ==> b !in jobs
      modifies this`outstandingJobs, this`blockedJobs, this`queue, blockedJobs`inProgress
      ensures Valid()
      ensures ret == |AfterFence(old(View()).(outstanding := old(outstandingJobs) + 1), |jobs|).released|
      ensures outstandingJobs == old(outstandingJobs) + ret
      ensures ret <= |old(blockedJobs)| == |old(queue)| && UpToFence(old(queue), ret, old(outstandingJobs) == 0 && jobs == [])
      ensures blockedJobs == old(blockedJobs)[ret..] && queue == old(queue)[ret..]
      ensures jobs' == jobs + old(blockedJobs)[..ret]
      ensures forall i :: 0 <= i < ret ==> old(blockedJobs)[i].inProgress
    {
      hide Leading, Drained;
      ghost var was, entries, outstanding := blockedJobs, queue, outstandingJobs;
      NothingDrained();
      jobs', ret := jobs, 0;
      while blockedJobs != []
        invariant Drained(was, entries, ret, outstanding)
        invariant ret <= Leading(entries)
        invariant jobs' == jobs + was[..ret]
        decreases |blockedJobs|
      {
        DrainedHead(was, entries, ret, outstanding);
        if blockedJobs[0].fence {
          if outstandingJobs == 0 && jobs' == [] {
            var fence := IssueNext(was, entries, ret, outstanding);
            assert was[..ret + 1] == was[..ret] + [was[ret]];
            jobs', ret := jobs' + [fence], ret + 1;
          }
          DrainedMeans(was, entries, ret, outstanding);
          return;
        }
        var bj := IssueNext(was, entries, ret, outstanding);
        assert was[..ret + 1] == was[..ret] + [was[ret]];
        jobs', ret := jobs' + [bj], ret + 1;
        DrainedHead(was, entries, ret, outstanding);
      }
      DrainedHead(was, entries, ret, outstanding);
      DrainedMeans(was, entries, ret, outstanding);
    }

    lemma DrainedMeans(was: seq<DiskIoJob>, entries: seq<Entry>, n: nat, outstanding: int)
      requires Drained(was, entries, n, outstanding)
      ensures Valid() && n <= |was| == |entries| && outstandingJobs == outstanding + n
      ensures blockedJobs == was[n..] && queue == entries[n..]
      ensures forall i :: 0 <= i < n ==> was[i].inProgress
    {
    }

    lemma NothingDrained()
      requires Valid()
      ensures Drained(blockedJobs, queue, 0, outstandingJobs)
    {
    }

    /** jobs is the caller's queue of jobs to issue; the jobs this completion unblocks
        are added to it, behind it when a fence is lowered, in front of it when the
        job added is the fence that was waited for. */
    method JobComplete(j: DiskIoJob, jobs: seq<DiskIoJob>) returns (ret: nat, jobs': seq<DiskIoJob>)
      requires Valid()
      requires j.inProgress && outstandingJobs > 0 && j !in blockedJobs
      requires forall b :: b in blockedJobs ==> b !in jobs
      requires j.fence ==> hasFence > 0
      requires !j.fence && outstandingJobs == 1 && hasFence > 0 ==> blockedJobs != []
      modifies this, j`inProgress, blockedJobs`inProgress
      ensures Valid()
      ensures ret == |AfterComplete(old(View()), j.fence, |jobs|).released|
      ensures View() == AfterComplete(old(View()), j.fence, |jobs|).state
      ensures ret <= |old(blockedJobs)| == |old(queue)| && outstandingJobs == old(outstandingJobs) - 1 + ret
      ensures hasFence == old(hasFence) - (if j.fence then 1 else 0)
      ensures j.fence ==> UpToFence(old(queue), ret, old(outstandingJobs) == 1 && jobs == [])
      ensures !j.fence ==> ret == if old(outstandingJobs) == 1 && old(hasFence) > 0 then 1 else 0
      ensures blockedJobs == old(blockedJobs)[ret..]
      ensures jobs' == if j.fence then jobs + old(blockedJobs)[..ret] else old(blockedJobs)[..ret] + jobs
      ensures !j.inProgress
      ensures forall i :: 0 <= i < ret ==> old(blockedJobs)[i].inProgress
    {
      hide Leading, UpToFence;
      j.inProgress := false;
      outstandingJobs := outstandingJobs - 1;
      if j.fence {
        hasFence := hasFence - 1;
        ret, jobs' := ReleaseBacklog(jobs);
      } else if outstandingJobs > 0 || hasFence == 0 {
        ret, jobs' := 0, jobs;
      } else {
        var bj := IssueHead();
        ret, jobs' := 1, [bj] + jobs;
      }
    }
  }
}
