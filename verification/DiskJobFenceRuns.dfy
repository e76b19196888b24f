/** Every run of the fence. A world is the fence together with the jobs it was ever
    given, in the order it accepted them; jobs are named by their place in that order. */
module DiskJobFenceRuns {
  import opened DiskJobFence

  /** accepted[..started] were put in progress at some point and running are the ones
      still in progress; accepted[started..] wait in the fence's queue. */
  datatype World = World(fence: State, accepted: seq<Entry>, started: nat, running: set<nat>)

  datatype Event =
    | Submit(id: nat)
    | Raise(id: nat, flushId: nat)
    | Complete(job: nat)

  const Initial := World(State(0, 0, []), [], 0, {})

  predicate Enabled(w: World, e: Event) {
    match e
    case Submit(_) => true
    case Raise(_, _) => true
    case Complete(job) => job in w.running && job < |w.accepted|
  }

  /** One locked call of the fence. extra is the length of the caller's queue. */
  function Next(w: World, e: Event, extra: nat): World
    requires Enabled(w, e)
  {
    match e
    case Submit(id) =>
      var s := AfterSubmit(w.fence, id);
      Accept(w, s, [Entry(id, false)], if w.fence.hasFence == 0 then 1 else 0)
    case Raise(id, flushId) =>
      var s := AfterRaise(w.fence, id, Entry(flushId, false));
      var j, fj := Entry(id, true), Entry(flushId, false);
      (match RaiseOutcome(w.fence)
       case PostFence => Accept(w, s, [j], 1)
       case PostFlush => Accept(w, s, [fj, j], 1)
       case PostNone => Accept(w, s, [fj, j], 0))
    case Complete(job) =>
      var c := AfterComplete(w.fence, w.accepted[job].fence, extra);
      World(c.state, w.accepted, w.started + |c.released|,
            w.running - {job} + Range(w.started, |c.released|))
  }

  /** The jobs js arrive and the first n of them are put in progress at once. */
  function Accept(w: World, s: State, js: seq<Entry>, n: nat): World {
    World(s, w.accepted + js, w.started + n, w.running + Range(w.started, n))
  }

  function Range(from: nat, n: nat): (r: set<nat>)
    ensures |r| == n
    ensures forall i :: i in r <==> from <= i < from + n
  {
    if n == 0 then {} else Range(from, n - 1) + {from + n - 1}
  }

  /** A run is a sequence of events, each with the length of its caller's queue. */
  predicate Valid(w: World, run: seq<(Event, nat)>)
    decreases |run|
  {
    run == [] || (Enabled(w, run[0].0) && Valid(Next(w, run[0].0, run[0].1), run[1..]))
  }

  function After(w: World, run: seq<(Event, nat)>): World
    requires Valid(w, run)
    decreases |run|
  {
    if run == [] then w else After(Next(w, run[0].0, run[0].1), run[1..])
  }

  function Fences(q: seq<Entry>): nat {
    if q == [] then 0 else Fences(q[..|q| - 1]) + (if q[|q| - 1].fence then 1 else 0)
  }

  ghost predicate Done(w: World, i: nat) {
    i < w.started && i !in w.running
  }

  /** A fence job can only be in progress as the last job started. */
  ghost predicate FenceRuns(w: World)
    requires w.started <= |w.accepted|
  {
    w.started > 0 && w.started - 1 in w.running && w.accepted[w.started - 1].fence
  }

  /** If two jobs were both put in progress and either is a fence, the earlier one had
      completed before the later one started (and so is completed now). */
  ghost predicate Barrier(w: World)
    requires w.started <= |w.accepted|
  {
    forall i, k {:trigger Excluded(w, i, k)} ::
      0 <= i < k < w.started && Excluded(w, i, k) ==> i !in w.running
  }

  ghost predicate Excluded(w: World, i: int, k: int)
    requires 0 <= i < k < |w.accepted|
  {
    w.accepted[i].fence || w.accepted[k].fence
  }

  ghost predicate Shape(w: World) {
    && w.started <= |w.accepted|
    && (forall i :: i in w.running ==> i < w.started)
    && w.fence.outstanding == |w.running|
    && w.fence.blocked == w.accepted[w.started..]
  }

  ghost predicate Counted(w: World)
    requires Shape(w)
  {
    && w.fence.hasFence == Fences(w.fence.blocked) + (if FenceRuns(w) then 1 else 0)
    && (w.fence.hasFence == 0 ==> w.fence.blocked == [])
  }

  /** A queued fence other than the one waited for follows its own flush job. */
  ghost predicate FencesFollowFlushes(q: seq<Entry>) {
    forall i :: 0 < i < |q| && q[i].fence ==> !q[i - 1].fence
  }

  /** What is at the head of the queue while a fence is up. */
  ghost predicate Heads(w: World)
    requires Shape(w)
  {
    && FencesFollowFlushes(w.fence.blocked)
    && (w.fence.hasFence > 0 && !FenceRuns(w) ==>
          w.fence.blocked != [] && w.fence.blocked[0].fence && w.running != {})
    && (FenceRuns(w) && w.fence.blocked != [] ==> !w.fence.blocked[0].fence)
  }

  ghost predicate Inv(w: World) {
    Shape(w) && Counted(w) && Barrier(w) && Heads(w)
  }

  lemma {:induction false} FencesConcat(a: seq<Entry>, b: seq<Entry>)
    ensures Fences(a + b) == Fences(a) + Fences(b)
  {
    if b == [] {
      assert a + b == a;
    } else {
      assert (a + b)[..|a + b| - 1] == a + b[..|b| - 1];
      FencesConcat(a, b[..|b| - 1]);
    }
  }

  lemma {:induction false} NoFences(q: seq<Entry>)
    requires forall i :: 0 <= i < |q| ==> !q[i].fence
    ensures Fences(q) == 0
  {
    if q != [] {
      NoFences(q[..|q| - 1]);
    }
  }

  lemma OneEntry(e: Entry)
    ensures Fences([e]) == if e.fence then 1 else 0
  {
    assert [e][..0] == [];
  }

  lemma EarlierIsDone(w: World, i: nat, k: nat)
    requires w.started <= |w.accepted| && Barrier(w)
    requires i < k < w.started && (w.accepted[i].fence || w.accepted[k].fence)
    ensures i !in w.running
  {
    assert Excluded(w, i, k);
  }

  /** While a fence runs it is the only job in progress. */
  lemma FenceIsAlone(w: World)
    requires Inv(w) && FenceRuns(w)
    ensures w.running == {w.started - 1} && w.fence.outstanding == 1
  {
    forall i | i in w.running
      ensures i == w.started - 1
    {
      if i < w.started - 1 {
        EarlierIsDone(w, i, w.started - 1);
      }
    }
    assert w.running == {w.started - 1};
  }

  lemma RunningFenceIsLast(w: World, job: nat)
    requires Inv(w) && job in w.running && w.accepted[job].fence
    ensures job == w.started - 1 && FenceRuns(w)
  {
    if job < w.started - 1 {
      EarlierIsDone(w, job, w.started - 1);
    }
  }

  /** Starting jobs keeps the barrier if no fence is left running, and a fence is only
      started when nothing else runs. */
  lemma StartKeepsBarrier(w: World, w': World)
    requires Shape(w) && Barrier(w) && Shape(w')
    requires w.started <= w'.started && w.accepted <= w'.accepted
    requires forall i :: i in w'.running && i < w.started ==> i in w.running
    requires w.started < w'.started ==>
      forall i :: i in w'.running && i < w.started ==> !w.accepted[i].fence
    requires forall k :: w.started <= k < w'.started && w'.accepted[k].fence ==>
      w'.started == w.started + 1 && w'.running == {k}
    ensures Barrier(w')
  {
    forall i, k | 0 <= i < k < w'.started && Excluded(w', i, k)
      ensures i !in w'.running
    {
      if k < w.started {
        assert Excluded(w, i, k);
      } else if i < w.started {
        assert w'.accepted[i] == w.accepted[i];
      }
    }
  }

  lemma SubmitKeepsShape(w: World, id: nat)
    requires Inv(w)
    ensures Shape(Next(w, Submit(id), 0)) && Counted(Next(w, Submit(id), 0))
  {
    hide Fences;
    var w' := Next(w, Submit(id), 0);
    OneEntry(Entry(id, false));
    FencesConcat(w.fence.blocked, [Entry(id, false)]);
    assert w'.fence.blocked == w'.accepted[w'.started..];
  }

  lemma SubmitKeepsOrder(w: World, id: nat)
    requires Inv(w) && Shape(Next(w, Submit(id), 0))
    ensures Barrier(Next(w, Submit(id), 0)) && Heads(Next(w, Submit(id), 0))
  {
    var w' := Next(w, Submit(id), 0);
    if w.fence.hasFence == 0 {
      NoRunningFence(w);
    }
    StartKeepsBarrier(w, w');
  }

  lemma NoRunningFence(w: World)
    requires Inv(w) && !FenceRuns(w)
    ensures forall i :: i in w.running ==> !w.accepted[i].fence
  {
    forall i | i in w.running
      ensures !w.accepted[i].fence
    {
      if w.accepted[i].fence {
        RunningFenceIsLast(w, i);
      }
    }
  }

  lemma FencesQueued(q: seq<Entry>, fj: Entry, j: Entry)
    requires j.fence && !fj.fence
    ensures Fences(q + [j]) == Fences(q + [fj, j]) == Fences(q) + 1
  {
    OneEntry(j);
    OneEntry(fj);
    FencesConcat(q, [j]);
    assert q + [fj, j] == q + [fj] + [j];
    FencesConcat(q + [fj], [j]);
    FencesConcat(q, [fj]);
  }

  lemma RaiseKeepsShape(w: World, id: nat, flushId: nat)
    requires Inv(w)
    ensures Shape(Next(w, Raise(id, flushId), 0))
  {
    var w' := Next(w, Raise(id, flushId), 0);
    assert w'.fence.blocked == w'.accepted[w'.started..];
  }

  lemma RaiseKeepsCount(w: World, id: nat, flushId: nat)
    requires Inv(w) && Shape(Next(w, Raise(id, flushId), 0))
    ensures Counted(Next(w, Raise(id, flushId), 0))
  {
    hide Fences;
    var w' := Next(w, Raise(id, flushId), 0);
    FencesQueued(w.fence.blocked, Entry(flushId, false), Entry(id, true));
    if RaiseOutcome(w.fence) == PostNone {
      assert FenceRuns(w') == FenceRuns(w);
    } else {
      assert !FenceRuns(w);
    }
  }

  lemma RaiseKeepsOrder(w: World, id: nat, flushId: nat)
    requires Inv(w) && Shape(Next(w, Raise(id, flushId), 0))
    ensures Barrier(Next(w, Raise(id, flushId), 0)) && Heads(Next(w, Raise(id, flushId), 0))
  {
    hide Fences;
    var w' := Next(w, Raise(id, flushId), 0);
    if w.fence.hasFence == 0 {
      NoRunningFence(w);
    }
    StartKeepsBarrier(w, w');
  }

  /** When a fence completes nothing else runs and a fence is never at the head, so the
      jobs released are the queued ones ahead of the next fence. */
  lemma FenceReleasesBacklog(w: World, job: nat, extra: nat)
    requires Inv(w) && job in w.running && w.accepted[job].fence
    ensures var q := w.fence.blocked;
      var n := Leading(q);
      && (n == 0 ==> q == [])
      && AfterFence(w.fence, extra) == Completion(State(w.fence.hasFence - 1, n, q[n..]), q[..n])
      && Next(w, Complete(job), extra) ==
           World(State(w.fence.hasFence - 1, n, q[n..]), w.accepted, w.started + n, Range(w.started, n))
  {
    RunningFenceIsLast(w, job);
    FenceIsAlone(w);
    assert w.running - {job} + Range(w.started, Leading(w.fence.blocked)) == Range(w.started, Leading(w.fence.blocked));
  }

  lemma FencesBehind(q: seq<Entry>)
    ensures Fences(q[Leading(q)..]) == Fences(q)
  {
    var n := Leading(q);
    NoFences(q[..n]);
    assert q == q[..n] + q[n..];
    FencesConcat(q[..n], q[n..]);
  }

  lemma FenceAtHead(q: seq<Entry>)
    requires q != [] && q[0].fence
    ensures Fences(q) == 1 + Fences(q[1..])
  {
    assert q == [q[0]] + q[1..];
    FencesConcat([q[0]], q[1..]);
    OneEntry(q[0]);
  }

  lemma CompleteFenceKeepsShape(w: World, job: nat, extra: nat)
    requires Inv(w) && job in w.running && w.accepted[job].fence
    ensures var w' := Next(w, Complete(job), extra);
      && Shape(w')
      && forall k :: w.started <= k < w'.started ==> !w'.accepted[k].fence
  {
    hide Fences;
    FenceReleasesBacklog(w, job, extra);
    var w' := Next(w, Complete(job), extra);
    var q := w.fence.blocked;
    assert w'.fence.blocked == w'.accepted[w'.started..];
    assert forall k :: w.started <= k < w'.started ==> w'.accepted[k] == q[k - w.started];
  }

  lemma CompleteFenceKeepsCount(w: World, job: nat, extra: nat)
    requires Inv(w) && job in w.running && w.accepted[job].fence
    requires var w' := Next(w, Complete(job), extra);
      && Shape(w')
      && forall k :: w.started <= k < w'.started ==> !w'.accepted[k].fence
    ensures var w' := Next(w, Complete(job), extra);
      Counted(w') && !FenceRuns(w')
  {
    FenceReleasesBacklog(w, job, extra);
    RunningFenceIsLast(w, job);
    var w' := Next(w, Complete(job), extra);
    var q := w.fence.blocked;
    var n := Leading(q);
    FencesBehind(q);
    if n < |q| {
      FenceAtHead(q[n..]);
    }
  }

  lemma CompleteFenceKeepsOrder(w: World, job: nat, extra: nat)
    requires Inv(w) && job in w.running && w.accepted[job].fence
    requires var w' := Next(w, Complete(job), extra);
      && Shape(w') && Counted(w') && !FenceRuns(w')
      && forall k :: w.started <= k < w'.started ==> !w'.accepted[k].fence
    ensures Barrier(Next(w, Complete(job), extra)) && Heads(Next(w, Complete(job), extra))
  {
    FenceReleasesBacklog(w, job, extra);
    var w' := Next(w, Complete(job), extra);
    StartKeepsBarrier(w, w');
    FencesBehind(w.fence.blocked);
    assert w'.fence.hasFence == Fences(w.fence.blocked);
  }

  /** When an ordinary job completes, either nothing is released or it was the last one
      the fence at the head of the queue waited for. */
  lemma OrdinaryReleases(w: World, job: nat, extra: nat)
    requires Inv(w) && job in w.running && !w.accepted[job].fence
    ensures !FenceRuns(w)
    ensures var w' := Next(w, Complete(job), extra);
      && (|w.running| > 1 || w.fence.hasFence == 0 ==>
            w' == World(w.fence.(outstanding := |w.running| - 1), w.accepted, w.started, w.running - {job}))
      && (!(|w.running| > 1 || w.fence.hasFence == 0) ==>
            && w.fence.blocked != [] && w.fence.blocked[0].fence
            && w' == World(w.fence.(blocked := w.fence.blocked[1..]), w.accepted, w.started + 1, {w.started}))
  {
    if FenceRuns(w) {
      FenceIsAlone(w);
    }
    assert |w.running - {job}| == |w.running| - 1;
    if |w.running| > 1 || w.fence.hasFence == 0 {
      assert w.running - {job} + Range(w.started, 0) == w.running - {job};
    } else {
      assert w.running - {job} == {};
      assert w.running - {job} + Range(w.started, 1) == {w.started};
    }
  }

  lemma CompleteOrdinaryKeepsShape(w: World, job: nat, extra: nat)
    requires Inv(w) && job in w.running && !w.accepted[job].fence
    ensures Shape(Next(w, Complete(job), extra)) && Counted(Next(w, Complete(job), extra))
  {
    OrdinaryReleases(w, job, extra);
    var w' := Next(w, Complete(job), extra);
    var q := w.fence.blocked;
    if |w.running| > 1 || w.fence.hasFence == 0 {
      assert |w.running - {job}| == |w.running| - 1;
    } else {
      assert w'.accepted[w.started] == q[0];
      assert q == [q[0]] + q[1..];
      OneEntry(q[0]);
      FencesConcat([q[0]], q[1..]);
      assert w'.fence.blocked == w'.accepted[w'.started..];
    }
  }

  lemma CompleteOrdinaryKeepsOrder(w: World, job: nat, extra: nat)
    requires Inv(w) && job in w.running && !w.accepted[job].fence
    requires Shape(Next(w, Complete(job), extra))
    ensures Barrier(Next(w, Complete(job), extra)) && Heads(Next(w, Complete(job), extra))
  {
    OrdinaryReleases(w, job, extra);
    var w' := Next(w, Complete(job), extra);
    StartKeepsBarrier(w, w');
    assert w.started < w'.started ==> w'.accepted[w.started] == w.fence.blocked[0];
    if |w.running| > 1 {
      assert |w'.running| > 0;
    }
  }

  lemma NextKeepsInv(w: World, e: Event, extra: nat)
    requires Inv(w) && Enabled(w, e)
    ensures Inv(Next(w, e, extra))
  {
    match e
    case Submit(id) =>
      SubmitKeepsShape(w, id);
      SubmitKeepsOrder(w, id);
    case Raise(id, flushId) =>
      RaiseKeepsShape(w, id, flushId);
      RaiseKeepsCount(w, id, flushId);
      RaiseKeepsOrder(w, id, flushId);
    case Complete(job) =>
      if w.accepted[job].fence {
        CompleteFenceKeepsShape(w, job, extra);
        CompleteFenceKeepsCount(w, job, extra);
        CompleteFenceKeepsOrder(w, job, extra);
      } else {
        CompleteOrdinaryKeepsShape(w, job, extra);
        CompleteOrdinaryKeepsOrder(w, job, extra);
      }
  }

  lemma {:induction false} RunKeepsInv(w: World, run: seq<(Event, nat)>)
    requires Inv(w) && Valid(w, run)
    decreases |run|
    ensures Inv(After(w, run))
  {
    if run != [] {
      NextKeepsInv(w, run[0].0, run[0].1);
      RunKeepsInv(Next(w, run[0].0, run[0].1), run[1..]);
    }
  }

  /** The fence is a barrier in every reachable state: a running fence is the only
      outstanding job, everything accepted before it has completed and nothing accepted
      after it has started; jobs start in the order they were accepted; and the fence
      counter is the number of fences blocked or running. */
  lemma FenceIsABarrier(run: seq<(Event, nat)>)
    requires Valid(Initial, run)
    ensures var w := After(Initial, run);
      && w.started <= |w.accepted|
      && w.fence.blocked == w.accepted[w.started..]
      && Barrier(w)
      && w.fence.hasFence == Fences(w.fence.blocked) + (if FenceRuns(w) then 1 else 0)
      && forall f :: f in w.running && f < |w.accepted| && w.accepted[f].fence ==>
           && w.running == {f} && w.fence.outstanding == 1 && w.started == f + 1
           && forall i :: 0 <= i < f ==> Done(w, i)
  {
    RunKeepsInv(Initial, run);
    var w := After(Initial, run);
    forall f | f in w.running && w.accepted[f].fence
      ensures w.running == {f} && w.fence.outstanding == 1 && w.started == f + 1
      ensures forall i :: 0 <= i < f ==> Done(w, i)
    {
      RunningFenceIsLast(w, f);
      FenceIsAlone(w);
    }
  }

  /** A fence job that is put in progress by any event finds every earlier job done. */
  lemma FenceStartsAlone(run: seq<(Event, nat)>, e: Event, extra: nat, f: nat)
    requires Valid(Initial, run) && Enabled(After(Initial, run), e)
    requires var w' := Next(After(Initial, run), e, extra);
      f in w'.running && f >= After(Initial, run).started && f < |w'.accepted| && w'.accepted[f].fence
    ensures var w' := Next(After(Initial, run), e, extra);
      w'.running == {f} && forall i :: 0 <= i < f ==> Done(w', i)
  {
    RunKeepsInv(Initial, run);
    var w := After(Initial, run);
    NextKeepsInv(w, e, extra);
    RunningFenceIsLast(Next(w, e, extra), f);
    FenceIsAlone(Next(w, e, extra));
  }

  /** No wakeup is lost: in every reachable state a queued job implies a job in progress,
      and each completion lowers the number of unfinished jobs by exactly one. */
  lemma NoLostWakeup(run: seq<(Event, nat)>, job: nat, extra: nat)
    requires Valid(Initial, run)
    ensures var w := After(Initial, run);
      && (w.fence.blocked != [] ==> w.fence.outstanding > 0)
      && (Enabled(w, Complete(job)) ==>
            Pending(Next(w, Complete(job), extra)) == Pending(w) - 1)
  {
    RunKeepsInv(Initial, run);
    var w := After(Initial, run);
    if FenceRuns(w) {
      FenceIsAlone(w);
    }
    if Enabled(w, Complete(job)) {
      CompletionLowersPending(w, job, extra);
    }
  }

  /** The jobs not completed yet. */
  ghost function Pending(w: World): int {
    w.fence.outstanding + |w.fence.blocked|
  }

  lemma CompletionLowersPending(w: World, job: nat, extra: nat)
    requires Inv(w) && job in w.running
    ensures Pending(Next(w, Complete(job), extra)) == Pending(w) - 1
  {
    if w.accepted[job].fence {
      FenceReleasesBacklog(w, job, extra);
      RunningFenceIsLast(w, job);
      FenceIsAlone(w);
    } else {
      OrdinaryReleases(w, job, extra);
    }
  }

  predicate Completions(run: seq<(Event, nat)>) {
    forall i :: 0 <= i < |run| ==> run[i].0.Complete?
  }

  /** However the running jobs are completed, as long as some job runs the drain goes on,
      and when none runs any more the queue is empty: a maximal run of completions from a
      reachable state has exactly one completion for each pending job. */
  lemma {:induction false} EveryDrainEmptiesTheQueue(w: World, run: seq<(Event, nat)>)
    requires Inv(w) && Valid(w, run) && Completions(run)
    ensures Pending(After(w, run)) == Pending(w) - |run|
    ensures After(w, run).running == {} <==> |run| == Pending(w)
    ensures After(w, run).running == {} ==> After(w, run).fence.blocked == []
    decreases |run|
  {
    if run == [] {
      if FenceRuns(w) {
        FenceIsAlone(w);
      }
    } else {
      var w1 := Next(w, run[0].0, run[0].1);
      NextKeepsInv(w, run[0].0, run[0].1);
      CompletionLowersPending(w, run[0].0.job, run[0].1);
      assert Completions(run[1..]);
      EveryDrainEmptiesTheQueue(w1, run[1..]);
    }
  }
}
