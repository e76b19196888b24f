/** The read jobs of one piece: at most one is on its way to the disk, the others wait for
    it at the piece. */
module ReadQueue {
  import opened Options
  import opened Picking

  /** What try_read() says about a job: it was answered from the cache, it failed for want
      of a buffer, or the disk has to be read. */
  datatype Answer = Hit | NoMemory | Miss

  /** outstanding is the flag of the piece, stalled its read_jobs, active the job that is
      queued for the disk or being read. completed are the jobs that were answered. */
  datatype Reads = Reads(outstanding: bool, stalled: seq<nat>, active: Option<nat>, completed: seq<nat>)

  /** The jobs with the answer that was asked for, in their order. */
  function Missed(jobs: seq<nat>, answers: seq<Answer>): (r: seq<nat>)
    requires |jobs| == |answers|
    ensures |r| <= |jobs|
  {
    if jobs == [] then []
    else
      var n := |jobs| - 1;
      Missed(jobs[..n], answers[..n]) + (if answers[n] == Miss then [jobs[n]] else [])
  }

  function Answered(jobs: seq<nat>, answers: seq<Answer>): (r: seq<nat>)
    requires |jobs| == |answers|
  {
    if jobs == [] then []
    else
      var n := |jobs| - 1;
      Answered(jobs[..n], answers[..n]) + (if answers[n] == Miss then [] else [jobs[n]])
  }

  /** How often a job is in a list. */
  function Times(jobs: seq<nat>, j: nat): nat {
    if jobs == [] then 0 else Times(jobs[..|jobs| - 1], j) + (if jobs[|jobs| - 1] == j then 1 else 0)
  }

  lemma {:induction false} TimesConcat(a: seq<nat>, b: seq<nat>, j: nat)
    ensures Times(a + b, j) == Times(a, j) + Times(b, j)
    decreases |b|
  {
    if b == [] {
      assert a + b == a;
    } else {
      assert (a + b)[..|a + b| - 1] == a + b[..|b| - 1];
      TimesConcat(a, b[..|b| - 1], j);
    }
  }

  lemma TimesOne(x: nat, j: nat)
    ensures Times([x], j) == if x == j then 1 else 0
  {
    assert [x][..0] == [];
  }

  /** Between them they are all the jobs. */
  lemma {:induction false} MissedOrAnswered(jobs: seq<nat>, answers: seq<Answer>, j: nat)
    requires |jobs| == |answers|
    ensures Times(Missed(jobs, answers), j) + Times(Answered(jobs, answers), j) == Times(jobs, j)
    ensures |Missed(jobs, answers)| + |Answered(jobs, answers)| == |jobs|
    decreases |jobs|
  {
    if jobs != [] {
      var n := |jobs| - 1;
      MissedOrAnswered(jobs[..n], answers[..n], j);
      TimesOne(jobs[n], j);
      TimesConcat(Missed(jobs[..n], answers[..n]), [jobs[n]], j);
      TimesConcat(Answered(jobs[..n], answers[..n]), [jobs[n]], j);
      assert Missed(jobs[..n], answers[..n]) + [] == Missed(jobs[..n], answers[..n]);
      assert Answered(jobs[..n], answers[..n]) + [] == Answered(jobs[..n], answers[..n]);
    }
  }

  /** prep_read_job_impl(): a job that misses starts a read, or waits for the one started. */
  function Prepare(r: Reads, job: nat, answer: Answer): Reads {
    if answer != Miss then r.(completed := r.completed + [job])
    else if r.outstanding then r.(stalled := r.stalled + [job])
    else r.(outstanding := true, active := Some(job))
  }

  /** maybe_issue_queued_read_jobs(), behind the read of the active job: what can be answered
      now is, the first job that cannot is issued, and the rest waits for it. */
  function Reissue(r: Reads, answers: seq<Answer>): Reads
    requires |answers| == |r.stalled|
  {
    var missed := Missed(r.stalled, answers);
    var completed := r.completed + Answered(r.stalled, answers);
    if missed == [] then Reads(false, [], None, completed)
    else Reads(true, missed[1..], Some(missed[0]), completed)
  }

  /** A failed read, or shutting down, completes everything that waits. */
  function FailAll(r: Reads): Reads {
    Reads(false, [], None, r.completed + r.stalled)
  }

  datatype Event =
    | Arrive(job: nat, answer: Answer)
    | Finish(answers: seq<Answer>)
    | Fail

  predicate Enabled(r: Reads, e: Event) {
    match e
    case Arrive(_, _) => true
    case Finish(answers) => r.active.Some? && |answers| == |r.stalled|
    case Fail => r.active.Some?
  }

  /** The active job is completed by the read itself. */
  function ActiveDone(r: Reads): Reads
    requires r.active.Some?
  {
    r.(completed := r.completed + [r.active.value], active := None)
  }

  function Next(r: Reads, e: Event): Reads
    requires Enabled(r, e)
  {
    match e
    case Arrive(job, answer) => Prepare(r, job, answer)
    case Finish(answers) => Reissue(ActiveDone(r), answers)
    case Fail => FailAll(ActiveDone(r))
  }

  function Arriving(e: Event, j: nat): nat {
    if e.Arrive? && e.job == j then 1 else 0
  }

  /** Jobs only wait while exactly one read is on its way. */
  predicate Good(r: Reads) {
    (r.outstanding <==> r.active.Some?) && (r.stalled != [] ==> r.outstanding)
  }

  /** How often a job is waiting, on its way or completed. */
  function Held(r: Reads, j: nat): nat {
    Times(r.stalled, j) + (if r.active == Some(j) then 1 else 0) + Times(r.completed, j)
  }

  function Waiting(r: Reads): nat {
    |r.stalled| + (if r.active.Some? then 1 else 0)
  }

  lemma ReissueKeeps(r: Reads, answers: seq<Answer>, j: nat)
    requires |answers| == |r.stalled| && r.active.None?
    ensures Good(Reissue(r, answers)) && Held(Reissue(r, answers), j) == Held(r, j)
    ensures Waiting(Reissue(r, answers)) <= Waiting(r)
  {
    hide Missed, Answered;
    MissedOrAnswered(r.stalled, answers, j);
    var missed := Missed(r.stalled, answers);
    TimesConcat(r.completed, Answered(r.stalled, answers), j);
    if missed != [] {
      assert missed == [missed[0]] + missed[1..];
      TimesConcat([missed[0]], missed[1..], j);
      TimesOne(missed[0], j);
    }
  }

  lemma ActiveDoneKeeps(r: Reads, j: nat)
    requires r.active.Some?
    ensures Held(ActiveDone(r), j) == Held(r, j)
  {
    TimesConcat(r.completed, [r.active.value], j);
    TimesOne(r.active.value, j);
  }

  /** No step loses or duplicates a job, and every read that ends leaves fewer behind. */
  lemma StepKeepsJobs(r: Reads, e: Event, j: nat)
    requires Good(r) && Enabled(r, e)
    ensures Good(Next(r, e)) && Held(Next(r, e), j) == Held(r, j) + Arriving(e, j)
    ensures e.Finish? || e.Fail? ==> Waiting(Next(r, e)) < Waiting(r)
  {
    hide Times, Missed, Answered;
    match e
    case Arrive(job, _) =>
      TimesConcat(r.completed, [job], j);
      TimesConcat(r.stalled, [job], j);
      TimesOne(job, j);
    case Finish(answers) =>
      ActiveDoneKeeps(r, j);
      ReissueKeeps(ActiveDone(r), answers, j);
    case Fail =>
      ActiveDoneKeeps(r, j);
      NoneLeft(j);
      TimesConcat(ActiveDone(r).completed, r.stalled, j);
  }

  lemma NoneLeft(j: nat)
    ensures Times([], j) == 0
  {
  }

  predicate IsRun(r: Reads, run: seq<Event>)
    decreases |run|
  {
    run == [] || (Enabled(r, run[0]) && IsRun(Next(r, run[0]), run[1..]))
  }

  function After(r: Reads, run: seq<Event>): Reads
    requires IsRun(r, run)
    decreases |run|
  {
    if run == [] then r else After(Next(r, run[0]), run[1..])
  }

  function Arrived(run: seq<Event>, j: nat): nat
    decreases |run|
  {
    if run == [] then 0 else Arriving(run[0], j) + Arrived(run[1..], j)
  }

  /** Over every run a job is as often completed, on its way or waiting as it arrived; and
      when no read is on its way it is completed as often as it arrived. */
  lemma {:induction false} RunLosesNoJob(r: Reads, run: seq<Event>, j: nat)
    requires Good(r) && IsRun(r, run)
    ensures var s := After(r, run);
      && Good(s) && Held(s, j) == Held(r, j) + Arrived(run, j)
      && (!s.outstanding ==> Times(s.completed, j) == Held(r, j) + Arrived(run, j))
    decreases |run|
  {
    if run != [] {
      hide Next, Enabled, Held;
      StepKeepsJobs(r, run[0], j);
      RunLosesNoJob(Next(r, run[0]), run[1..], j);
    }
  }

  /** The places of the jobs that were answered and of those that were not. */
  ghost predicate SortedOut(jobs: seq<nat>, answers: seq<Answer>, hits: seq<nat>, misses: seq<nat>)
    requires |jobs| == |answers|
  {
    && Places(hits, |jobs|) && Places(misses, |jobs|)
    && forall i :: 0 <= i < |answers| ==> (i in misses <==> answers[i] == Miss) && (i in hits <==> answers[i] != Miss)
  }

  /** These jobs were gone through: done were completed, next is to be issued, and waiting are
      to wait again. */
  ghost predicate Sifted(jobs: seq<nat>, answers: seq<Answer>, done: seq<nat>, next: Option<nat>, waiting: seq<nat>,
                         hits: seq<nat>, misses: seq<nat>)
  {
    && |jobs| == |answers| && SortedOut(jobs, answers, hits, misses) && Picked(jobs, hits, done)
    && (misses == [] ==> next == None && waiting == [])
    && (misses != [] ==> next == Some(jobs[misses[0]]) && Picked(jobs, misses[1..], waiting))
  }

  lemma SiftNext(jobs: seq<nat>, answers: seq<Answer>, done: seq<nat>, next: Option<nat>, waiting: seq<nat>,
                 hits: seq<nat>, misses: seq<nat>, j: nat, a: Answer)
    requires Sifted(jobs, answers, done, next, waiting, hits, misses)
    ensures a != Miss ==> Sifted(jobs + [j], answers + [a], done + [j], next, waiting, hits + [|jobs|], misses)
    ensures a == Miss && next.None? ==>
      Sifted(jobs + [j], answers + [a], done, Some(j), waiting, hits, misses + [|jobs|])
    ensures a == Miss && next.Some? ==>
      Sifted(jobs + [j], answers + [a], done, next, waiting + [j], hits, misses + [|jobs|])
  {
    PickNext(jobs, hits, done, j);
    if misses != [] {
      PickNext(jobs, misses[1..], waiting, j);
      assert (misses + [|jobs|])[1..] == misses[1..] + [|jobs|];
    }
  }

  /** The lists as the functions have them. */
  predicate SiftedAs(jobs: seq<nat>, answers: seq<Answer>, done: seq<nat>, next: Option<nat>, waiting: seq<nat>)
    requires |jobs| == |answers|
  {
    && done == Answered(jobs, answers)
    && Missed(jobs, answers) == (if next.Some? then [next.value] else []) + waiting
    && (next.None? ==> waiting == [])
  }

  lemma SiftAsNext(jobs: seq<nat>, answers: seq<Answer>, done: seq<nat>, next: Option<nat>, waiting: seq<nat>,
                   j: nat, a: Answer)
    requires |jobs| == |answers| && SiftedAs(jobs, answers, done, next, waiting)
    ensures a != Miss ==> SiftedAs(jobs + [j], answers + [a], done + [j], next, waiting)
    ensures a == Miss && next.None? ==> SiftedAs(jobs + [j], answers + [a], done, Some(j), waiting)
    ensures a == Miss && next.Some? ==> SiftedAs(jobs + [j], answers + [a], done, next, waiting + [j])
  {
    assert (jobs + [j])[..|jobs|] == jobs && (answers + [a])[..|jobs|] == answers;
  }

  /** The queue of a piece, as the disk thread changes it. */
  class PieceReads {
    var outstandingRead: bool
    var readJobs: seq<nat>
    var issued: Option<nat>
    var completedJobs: seq<nat>

    constructor ()
      ensures View() == Reads(false, [], None, [])
    {
      outstandingRead, readJobs, issued, completedJobs := false, [], None, [];
    }

    function View(): Reads
      reads this
    {
      Reads(outstandingRead, readJobs, issued, completedJobs)
    }

    /** The part of prep_read_job_impl() behind the lookup in the cache. */
    method PrepReadJob(j: nat, answer: Answer) returns (ret: nat)
      requires Good(View())
      modifies this
      ensures View() == Prepare(old(View()), j, answer)
      ensures ret == if answer != Miss then 0 else if old(outstandingRead) then 2 else 1
      ensures ret == 0 ==>
        && completedJobs == old(completedJobs) + [j]
        && readJobs == old(readJobs) && issued == old(issued) && outstandingRead == old(outstandingRead)
      ensures ret == 1 ==>
        issued == Some(j) && outstandingRead && readJobs == old(readJobs) && completedJobs == old(completedJobs)
      ensures ret == 2 ==>
        && readJobs == old(readJobs) + [j]
        && issued == old(issued) && outstandingRead && completedJobs == old(completedJobs)
    {
      if answer != Miss {
        completedJobs := completedJobs + [j];
        return 0;
      }
      if outstandingRead {
        readJobs := readJobs + [j];
        return 2;
      }
      outstandingRead, issued := true, Some(j);
      return 1;
    }

    /** answers are those of try_read() for the stalled jobs, in their order. The jobs that it
        answered, at the places hits, are completed; of those at the places misses the first
        one is issued and the others go on waiting. */
    method MaybeIssueQueuedReadJobs(abort: bool, answers: seq<Answer>)
        returns (ghost hits: seq<nat>, ghost misses: seq<nat>)
      requires outstandingRead && issued.None? && |answers| == |readJobs|
      modifies this
      ensures View() == if abort then FailAll(old(View())) else Reissue(old(View()), answers)
      ensures Good(View())
      ensures abort ==>
        !outstandingRead && issued == None && readJobs == [] && completedJobs == old(completedJobs) + old(readJobs)
      ensures !abort ==> SortedOut(old(readJobs), answers, hits, misses)
      ensures !abort ==>
        old(completedJobs) <= completedJobs && Picked(old(readJobs), hits, completedJobs[|old(completedJobs)|..])
      ensures !abort && misses == [] ==> !outstandingRead && issued == None && readJobs == []
      ensures !abort && misses != [] ==>
        && outstandingRead && issued == Some(old(readJobs)[misses[0]])
        && Picked(old(readJobs), misses[1..], readJobs)
    {
      hits, misses := [], [];
      if abort {
        completedJobs := completedJobs + readJobs;
        readJobs, outstandingRead := [], false;
        return;
      }
      hide Sifted, SiftedAs, SortedOut, Picked, Missed, Answered;
      ghost var r := View();
      ghost var done: seq<nat>;
      var nextJob;
      nextJob, done, hits, misses := GoThrough(answers);
      assert completedJobs[|r.completed|..] == done;
      SiftedIs(r.stalled, answers, done, nextJob, readJobs, hits, misses);
      if nextJob.Some? {
        issued := nextJob;
      } else {
        outstandingRead := false;
      }
    }

    /** The loop over the stalled jobs. */
    method GoThrough(answers: seq<Answer>)
        returns (nextJob: Option<nat>, ghost done: seq<nat>, ghost hits: seq<nat>, ghost misses: seq<nat>)
      requires |answers| == |readJobs|
      modifies this`readJobs, this`completedJobs
      ensures completedJobs == old(completedJobs) + done
      ensures Sifted(old(readJobs), answers, done, nextJob, readJobs, hits, misses)
      ensures SiftedAs(old(readJobs), answers, done, nextJob, readJobs)
    {
      hide Sifted, SiftedAs;
      var stalledJobs := readJobs;
      readJobs, nextJob := [], None;
      done, hits, misses := [], [], [];
      NothingSifted();
      for i := 0 to |stalledJobs|
        invariant completedJobs == old(completedJobs) + done
        invariant Sifted(stalledJobs[..i], answers[..i], done, nextJob, readJobs, hits, misses)
        invariant SiftedAs(stalledJobs[..i], answers[..i], done, nextJob, readJobs)
      {
        var j := stalledJobs[i];
        assert stalledJobs[..i + 1] == stalledJobs[..i] + [j] && answers[..i + 1] == answers[..i] + [answers[i]];
        SiftNext(stalledJobs[..i], answers[..i], done, nextJob, readJobs, hits, misses, j, answers[i]);
        SiftAsNext(stalledJobs[..i], answers[..i], done, nextJob, readJobs, j, answers[i]);
        if answers[i] != Miss {
          assert completedJobs + [j] == old(completedJobs) + (done + [j]);
          completedJobs := completedJobs + [j];
          done, hits := done + [j], hits + [i];
        } else if nextJob.None? {
          nextJob, misses := Some(j), misses + [i];
        } else {
          readJobs, misses := readJobs + [j], misses + [i];
        }
      }
      assert stalledJobs[..|stalledJobs|] == stalledJobs && answers[..|stalledJobs|] == answers;
    }
  }

  lemma NothingSifted()
    ensures Sifted([], [], [], None, [], [], []) && SiftedAs([], [], [], None, [])
  {
  }

  lemma SiftedIs(jobs: seq<nat>, answers: seq<Answer>, done: seq<nat>, next: Option<nat>, waiting: seq<nat>,
                 hits: seq<nat>, misses: seq<nat>)
    requires Sifted(jobs, answers, done, next, waiting, hits, misses) && SiftedAs(jobs, answers, done, next, waiting)
    ensures SortedOut(jobs, answers, hits, misses) && Picked(jobs, hits, done)
    ensures misses == [] ==> next == None && waiting == []
    ensures misses != [] ==> misses[0] < |jobs| && next == Some(jobs[misses[0]]) && Picked(jobs, misses[1..], waiting)
    ensures next.None? ==> Missed(jobs, answers) == [] && waiting == []
    ensures next.Some? ==> Missed(jobs, answers) == [next.value] + waiting
    ensures done == Answered(jobs, answers)
  {
    hide Missed, Answered;
  }
}
