/** The bounded, coalescing dispatcher as a concurrent object: each step is one region that runs
    under the lock, one callback statement, or one event in a worker thread. */
module BoundedDispatch {
  import opened Options

  type Key = string

  /** A submitted execution and how far its future and its completion callback have come. The
      callback runs once it is registered and the future is finished, in either order. */
  datatype Job = Job(
    key: Option<Key>, generation: nat, finished: bool, registered: bool, released: bool, removed: bool)

  /** `permits` and `accepting` are the semaphore and the executor of every generation so far; the
      last is the current one. `shutdowns` counts `close` calls between their two halves. */
  datatype State = State(
    capacity: nat, permits: seq<nat>, accepting: seq<bool>, inflight: map<Key, nat>,
    closed: bool, jobs: seq<Job>, shutdowns: nat)
  {
    function Current(): nat
      requires permits != []
    {
      |permits| - 1
    }
  }

  /** At least one worker and no negative queue, whatever was asked for. */
  function Bound(maxWorkers: int, maxQueued: int): nat {
    (if maxWorkers < 1 then 1 else maxWorkers) + if maxQueued < 0 then 0 else maxQueued
  }

  function Initial(maxWorkers: int, maxQueued: int): State {
    State(Bound(maxWorkers, maxQueued), [Bound(maxWorkers, maxQueued)], [true], map[], false, [], 0)
  }

  datatype Outcome = Busy | Joined(job: nat) | Admitted(job: nat) | SubmitRaised

  datatype Step =
    | Arrive(key: Option<Key>)
    | Register(job: nat)
    | Finish(job: nat)
    | Release(job: nat)
    | Remove(job: nat)
    | TimeOut
    | MarkClosed
    | ShutDown
    | Start

  function NewJob(key: Option<Key>, generation: nat): Job {
    Job(key, generation, false, false, false, false)
  }

  /** The locked region of `run`. A submission to an executor that was shut down raises after the
      permit has been taken. */
  function Arriving(s: State, key: Option<Key>): (State, Outcome)
    requires Shaped(s)
  {
    if s.closed then (s, Busy)
    else if key.Some? && key.value in s.inflight then (s, Joined(s.inflight[key.value]))
    else if s.permits[s.Current()] == 0 then (s, Busy)
    else
      var taken := s.(permits := s.permits[s.Current() := s.permits[s.Current()] - 1]);
      if !s.accepting[s.Current()] then (taken, SubmitRaised)
      else
        (taken.(jobs := s.jobs + [NewJob(key, s.Current())],
                inflight := if key.Some? then s.inflight[key.value := |s.jobs|] else s.inflight),
         Admitted(|s.jobs|))
  }

  predicate Enabled(s: State, step: Step) {
    match step
    case Arrive(_) => true
    case Register(j) => j < |s.jobs| && !s.jobs[j].registered
    case Finish(j) => j < |s.jobs| && !s.jobs[j].finished
    case Release(j) => j < |s.jobs| && s.jobs[j].finished && s.jobs[j].registered && !s.jobs[j].released
    case Remove(j) => j < |s.jobs| && s.jobs[j].released && !s.jobs[j].removed
    case TimeOut => true
    case MarkClosed => true
    case ShutDown => s.shutdowns > 0
    case Start => true
  }

  function Perform(s: State, step: Step): State
    requires Shaped(s) && Enabled(s, step)
  {
    match step
    case Arrive(key) => Arriving(s, key).0
    case Register(j) => s.(jobs := s.jobs[j := s.jobs[j].(registered := true)])
    case Finish(j) => s.(jobs := s.jobs[j := s.jobs[j].(finished := true)])
    case Release(j) =>
      var g := s.jobs[j].generation;
      s.(permits := s.permits[g := s.permits[g] + 1], jobs := s.jobs[j := s.jobs[j].(released := true)])
    case Remove(j) =>
      var key := s.jobs[j].key;
      s.(jobs := s.jobs[j := s.jobs[j].(removed := true)],
         inflight := if key.Some? && key.value in s.inflight && s.inflight[key.value] == j
                     then s.inflight - {key.value} else s.inflight)
    case TimeOut => s
    case MarkClosed => if s.closed then s else s.(closed := true, shutdowns := s.shutdowns + 1)
    case ShutDown => s.(shutdowns := s.shutdowns - 1, accepting := s.accepting[s.Current() := false])
    case Start =>
      if !s.closed then s
      else s.(permits := s.permits + [s.capacity], accepting := s.accepting + [true], inflight := map[], closed := false)
  }

  predicate Shaped(s: State) {
    && |s.permits| == |s.accepting| >= 1
    && (forall j :: 0 <= j < |s.jobs| ==> s.jobs[j].generation < |s.permits|)
  }

  /** One step of any thread; a step that is not enabled does not happen. */
  function Next(s: State, step: Step): (r: State)
    requires Shaped(s)
    ensures Shaped(r)
  {
    if Enabled(s, step) then Perform(s, step) else s
  }

  function Run(s: State, steps: seq<Step>): (r: State)
    requires Shaped(s)
    ensures Shaped(r)
  {
    if steps == [] then s else Next(Run(s, steps[..|steps| - 1]), steps[|steps| - 1])
  }

  // ---------- coalescing ----------

  predicate Twins(a: Job, b: Job) {
    a.key.Some? && a.key == b.key && a.generation == b.generation
  }

  /** The in-flight map holds exactly the keyed jobs of the current generation whose own completion
      has not taken them out, and of two jobs with one key the earlier is out. */
  ghost predicate Coalesced(s: State)
    requires Shaped(s)
  {
    && (forall k :: k in s.inflight ==> s.inflight[k] < |s.jobs| && Listed(s, k, s.inflight[k]))
    && (forall j :: 0 <= j < |s.jobs| && s.jobs[j].key.Some? && s.jobs[j].generation == s.Current() && !s.jobs[j].removed ==>
          s.jobs[j].key.value in s.inflight && s.inflight[s.jobs[j].key.value] == j)
    && (forall i, j :: 0 <= i < j < |s.jobs| && Twins(s.jobs[i], s.jobs[j]) ==> s.jobs[i].removed)
    && (forall j :: 0 <= j < |s.jobs| ==> Progressed(s.jobs[j]))
  }

  predicate Listed(s: State, k: Key, j: nat)
    requires Shaped(s) && j < |s.jobs|
  {
    s.jobs[j].key == Some(k) && s.jobs[j].generation == s.Current() && !s.jobs[j].removed
  }

  predicate Progressed(job: Job) {
    (job.removed ==> job.released) && (job.released ==> job.finished && job.registered)
  }

  /** `b` is `a` some way further on, still in the same place of the map. */
  predicate SamePlace(a: Job, b: Job) {
    a.key == b.key && a.generation == b.generation && a.removed == b.removed && Progressed(b)
  }

  lemma FlagKeepsCoalesced(s: State, j: nat, job: Job, t: State)
    requires Shaped(s) && Coalesced(s) && j < |s.jobs| && SamePlace(s.jobs[j], job)
    requires t == s.(jobs := s.jobs[j := job], permits := t.permits) && |t.permits| == |s.permits|
    ensures Shaped(t) && Coalesced(t)
  {
    assert forall k :: k in t.inflight ==> Listed(s, k, s.inflight[k]);
    forall i, k | 0 <= i < k < |t.jobs| && Twins(t.jobs[i], t.jobs[k])
      ensures t.jobs[i].removed
    {
      assert Twins(s.jobs[i], s.jobs[k]);
    }
  }

  lemma AdmitKeepsCoalesced(s: State, key: Option<Key>, t: State)
    requires Shaped(s) && Coalesced(s) && (key.Some? ==> key.value !in s.inflight)
    requires |t.permits| == |s.permits| && |t.accepting| == |s.accepting|
    requires t.jobs == s.jobs + [NewJob(key, s.Current())]
    requires t.inflight == if key.Some? then s.inflight[key.value := |s.jobs|] else s.inflight
    ensures Shaped(t) && Coalesced(t)
  {
    forall k | k in t.inflight
      ensures t.inflight[k] < |t.jobs| && Listed(t, k, t.inflight[k])
    {
      if k in s.inflight { assert Listed(s, k, s.inflight[k]); }
    }
    forall i, k | 0 <= i < k < |t.jobs| && Twins(t.jobs[i], t.jobs[k])
      ensures t.jobs[i].removed
    {
      if k < |s.jobs| { assert Twins(s.jobs[i], s.jobs[k]); }
    }
  }

  lemma ArriveKeepsCoalesced(s: State, key: Option<Key>)
    requires Shaped(s) && Coalesced(s)
    ensures Shaped(Arriving(s, key).0) && Coalesced(Arriving(s, key).0)
  {
    var (t, outcome) := Arriving(s, key);
    if outcome.Admitted? { AdmitKeepsCoalesced(s, key, t); }
  }

  lemma RemoveKeepsCoalesced(s: State, j: nat)
    requires Shaped(s) && Coalesced(s) && Enabled(s, Remove(j))
    ensures Shaped(Perform(s, Remove(j))) && Coalesced(Perform(s, Remove(j)))
  {
    var t := Perform(s, Remove(j));
    forall k | k in t.inflight
      ensures t.inflight[k] < |t.jobs| && Listed(t, k, t.inflight[k])
    {
      assert Listed(s, k, s.inflight[k]);
    }
    forall i, k | 0 <= i < k < |t.jobs| && Twins(t.jobs[i], t.jobs[k])
      ensures t.jobs[i].removed
    {
      assert Twins(s.jobs[i], s.jobs[k]);
    }
  }

  lemma StartKeepsCoalesced(s: State)
    requires Shaped(s) && Coalesced(s)
    ensures Shaped(Perform(s, Start)) && Coalesced(Perform(s, Start))
  {
  }

  lemma StepKeepsCoalesced(s: State, step: Step)
    requires Shaped(s) && Coalesced(s)
    ensures Coalesced(Next(s, step))
  {
    if Enabled(s, step) {
      match step {
        case Arrive(key) => ArriveKeepsCoalesced(s, key);
        case Register(j) => FlagKeepsCoalesced(s, j, s.jobs[j].(registered := true), Perform(s, step));
        case Finish(j) => FlagKeepsCoalesced(s, j, s.jobs[j].(finished := true), Perform(s, step));
        case Release(j) => FlagKeepsCoalesced(s, j, s.jobs[j].(released := true), Perform(s, step));
        case Remove(j) => RemoveKeepsCoalesced(s, j);
        case TimeOut =>
        case MarkClosed =>
        case ShutDown =>
        case Start => StartKeepsCoalesced(s);
      }
    }
  }

  lemma {:induction false} RunKeepsCoalesced(maxWorkers: int, maxQueued: int, steps: seq<Step>)
    ensures Coalesced(Run(Initial(maxWorkers, maxQueued), steps))
  {
    if steps != [] {
      RunKeepsCoalesced(maxWorkers, maxQueued, steps[..|steps| - 1]);
      StepKeepsCoalesced(Run(Initial(maxWorkers, maxQueued), steps[..|steps| - 1]), steps[|steps| - 1]);
    }
  }

  /** Two unfinished executions of one generation never share a key, in any interleaving. */
  lemma CoalescingSafety(maxWorkers: int, maxQueued: int, steps: seq<Step>, a: nat, b: nat)
    requires a < |Run(Initial(maxWorkers, maxQueued), steps).jobs| && b < |Run(Initial(maxWorkers, maxQueued), steps).jobs|
    requires var jobs := Run(Initial(maxWorkers, maxQueued), steps).jobs;
             Twins(jobs[a], jobs[b]) && !jobs[a].finished && !jobs[b].finished
    ensures a == b
  {
    RunKeepsCoalesced(maxWorkers, maxQueued, steps);
    var s := Run(Initial(maxWorkers, maxQueued), steps);
    assert Progressed(s.jobs[a]) && Progressed(s.jobs[b]);
  }

  /** A caller that arrives while a keyed job of this generation is unfinished gets that job's
      future, and nothing else happens. */
  lemma ArrivalJoins(maxWorkers: int, maxQueued: int, steps: seq<Step>, key: Key, j: nat)
    requires j < |Run(Initial(maxWorkers, maxQueued), steps).jobs| && !Run(Initial(maxWorkers, maxQueued), steps).closed
    requires var s := Run(Initial(maxWorkers, maxQueued), steps);
             s.jobs[j].key == Some(key) && s.jobs[j].generation == s.Current() && !s.jobs[j].finished
    ensures var s := Run(Initial(maxWorkers, maxQueued), steps);
            Arriving(s, Some(key)) == (s, Joined(j))
  {
    RunKeepsCoalesced(maxWorkers, maxQueued, steps);
    var s := Run(Initial(maxWorkers, maxQueued), steps);
    assert Progressed(s.jobs[j]);
  }

  /** While a generation lasts, an in-flight entry goes away only through the completion callback of
      the very job it names, which has finished by then. */
  lemma EntryRemovedByOwner(s: State, step: Step, key: Key)
    requires Shaped(s) && Coalesced(s) && key in s.inflight
    requires !(key in Next(s, step).inflight && Next(s, step).inflight[key] == s.inflight[key])
    ensures (step == Remove(s.inflight[key]) && s.jobs[s.inflight[key]].finished) || (step == Start && s.closed)
  {
  }

  // ---------- permits ----------

  /** Admitted jobs of the generation whose callback has not released yet. */
  function Outstanding(jobs: seq<Job>, g: nat): nat {
    if jobs == [] then 0
    else
      var last := jobs[|jobs| - 1];
      Outstanding(jobs[..|jobs| - 1], g) + if last.generation == g && !last.released then 1 else 0
  }

  ghost predicate Conserved(s: State) {
    forall g :: 0 <= g < |s.permits| ==> s.permits[g] + Outstanding(s.jobs, g) == s.capacity
  }

  /** An open dispatcher has a live executor, and no `close` is half done. */
  predicate Healthy(s: State)
    requires Shaped(s)
  {
    (!s.closed ==> s.accepting[s.Current()]) && (s.shutdowns > 0 ==> s.closed)
  }

  /** `start` does not fall between the two halves of a `close`. */
  predicate Orderly(s: State, step: Step) {
    step == Start && s.closed ==> s.shutdowns == 0
  }

  predicate OrderlyRun(s: State, steps: seq<Step>)
    requires Shaped(s)
  {
    steps == [] || (OrderlyRun(s, steps[..|steps| - 1]) && Orderly(Run(s, steps[..|steps| - 1]), steps[|steps| - 1]))
  }

  lemma {:induction false} OutstandingUpdate(jobs: seq<Job>, j: nat, job: Job, g: nat)
    requires j < |jobs| && job.generation == jobs[j].generation
    ensures Outstanding(jobs[j := job], g)
            == Outstanding(jobs, g)
             - (if jobs[j].generation == g && !jobs[j].released then 1 else 0)
             + (if job.generation == g && !job.released then 1 else 0)
  {
    if j < |jobs| - 1 {
      assert jobs[j := job][..|jobs| - 1] == jobs[..|jobs| - 1][j := job];
      OutstandingUpdate(jobs[..|jobs| - 1], j, job, g);
    } else {
      assert jobs[j := job][..j] == jobs[..j];
    }
  }

  lemma {:induction false} OutstandingFuture(jobs: seq<Job>, g: nat)
    requires forall j :: 0 <= j < |jobs| ==> jobs[j].generation < g
    ensures Outstanding(jobs, g) == 0
  {
    if jobs != [] { OutstandingFuture(jobs[..|jobs| - 1], g); }
  }

  lemma {:induction false} OutstandingPositive(jobs: seq<Job>, j: nat)
    requires j < |jobs| && !jobs[j].released
    ensures Outstanding(jobs, jobs[j].generation) > 0
  {
    if j < |jobs| - 1 { OutstandingPositive(jobs[..|jobs| - 1], j); }
  }

  lemma FlagKeepsConserved(s: State, j: nat, job: Job)
    requires Shaped(s) && Conserved(s) && j < |s.jobs|
    requires job.generation == s.jobs[j].generation && job.released == s.jobs[j].released
    ensures Conserved(s.(jobs := s.jobs[j := job]))
  {
    forall g | 0 <= g < |s.permits|
      ensures Outstanding(s.jobs[j := job], g) == Outstanding(s.jobs, g)
    {
      OutstandingUpdate(s.jobs, j, job, g);
    }
  }

  lemma ReleaseKeepsConserved(s: State, j: nat)
    requires Shaped(s) && Conserved(s) && Enabled(s, Release(j))
    ensures Conserved(Perform(s, Release(j)))
  {
    forall g | 0 <= g < |s.permits|
      ensures Perform(s, Release(j)).permits[g] + Outstanding(Perform(s, Release(j)).jobs, g) == s.capacity
    {
      OutstandingUpdate(s.jobs, j, s.jobs[j].(released := true), g);
    }
  }

  /** An arrival keeps the count exactly when its submission does not raise. */
  lemma ArrivalConservesIff(s: State, key: Option<Key>)
    requires Shaped(s) && Conserved(s)
    ensures Conserved(Arriving(s, key).0) <==> Arriving(s, key).1 != SubmitRaised
  {
  }

  lemma StartKeepsConserved(s: State)
    requires Shaped(s) && Conserved(s)
    ensures Conserved(Perform(s, Start))
  {
    OutstandingFuture(s.jobs, |s.permits|);
  }

  lemma StepKeepsConserved(s: State, step: Step)
    requires Shaped(s) && Conserved(s) && Healthy(s) && Orderly(s, step)
    ensures Conserved(Next(s, step)) && Healthy(Next(s, step))
  {
    if Enabled(s, step) {
      match step {
        case Arrive(key) => ArrivalConservesIff(s, key);
        case Register(j) => FlagKeepsConserved(s, j, s.jobs[j].(registered := true));
        case Finish(j) => FlagKeepsConserved(s, j, s.jobs[j].(finished := true));
        case Release(j) => ReleaseKeepsConserved(s, j);
        case Remove(j) => FlagKeepsConserved(s, j, s.jobs[j].(removed := true));
        case TimeOut =>
        case MarkClosed =>
        case ShutDown =>
        case Start => StartKeepsConserved(s);
      }
    }
  }

  lemma {:induction false} RunKeepsConserved(s: State, steps: seq<Step>)
    requires Shaped(s) && Conserved(s) && Healthy(s) && OrderlyRun(s, steps)
    ensures Conserved(Run(s, steps)) && Healthy(Run(s, steps))
  {
    if steps != [] {
      RunKeepsConserved(s, steps[..|steps| - 1]);
      StepKeepsConserved(Run(s, steps[..|steps| - 1]), steps[|steps| - 1]);
    }
  }

  /** Permit conservation with generation isolation: in every orderly interleaving, free permits
      plus unreleased admitted jobs of a generation are its capacity; a release never exceeds the
      bound; and no submission raises. */
  lemma PermitConservation(maxWorkers: int, maxQueued: int, steps: seq<Step>)
    requires OrderlyRun(Initial(maxWorkers, maxQueued), steps)
    ensures var s := Run(Initial(maxWorkers, maxQueued), steps);
            && (forall g :: 0 <= g < |s.permits| ==> s.permits[g] + Outstanding(s.jobs, g) == s.capacity)
            && (forall j: nat :: Enabled(s, Release(j)) ==> s.permits[s.jobs[j].generation] < s.capacity)
            && (forall key :: Arriving(s, key).1 != SubmitRaised)
  {
    RunKeepsConserved(Initial(maxWorkers, maxQueued), steps);
    var s := Run(Initial(maxWorkers, maxQueued), steps);
    forall j: nat | Enabled(s, Release(j))
      ensures s.permits[s.jobs[j].generation] < s.capacity
    {
      OutstandingPositive(s.jobs, j);
    }
  }

  /** A job of the current generation under this key that its own completion has not taken out. */
  predicate Underway(s: State, key: Option<Key>)
    requires Shaped(s)
  {
    key.Some? && exists j :: 0 <= j < |s.jobs| && s.jobs[j].key == key && s.jobs[j].generation == s.Current() && !s.jobs[j].removed
  }

  /** At most this many executions at once: the workers, at least one, and the queue, if any. */
  function Places(maxWorkers: int, maxQueued: int): nat {
    if maxWorkers >= 1 && maxQueued >= 0 then maxWorkers + maxQueued
    else if maxWorkers >= 1 then maxWorkers else if maxQueued >= 0 then 1 + maxQueued else 1
  }

  lemma UnderwayIffListed(s: State, key: Option<Key>)
    requires Shaped(s) && Coalesced(s)
    ensures Underway(s, key) <==> key.Some? && key.value in s.inflight
  {
    if key.Some? && key.value in s.inflight { assert Listed(s, key.value, s.inflight[key.value]); }
  }

  /** What an arrival is told, in any orderly run, by the jobs there are: busy exactly when the
      dispatcher is closed, or all places are taken and there is nothing to join; a job of its key to
      join exactly when there is one; and otherwise a job of its own. Only that changes anything. */
  lemma ArrivalAnswer(maxWorkers: int, maxQueued: int, steps: seq<Step>, key: Option<Key>)
    requires OrderlyRun(Initial(maxWorkers, maxQueued), steps)
    ensures var s := Run(Initial(maxWorkers, maxQueued), steps);
            var (after, outcome) := Arriving(s, key);
            var full := Outstanding(s.jobs, s.Current()) == Places(maxWorkers, maxQueued);
            && (outcome == Busy <==> s.closed || (full && !Underway(s, key)))
            && (outcome.Joined? <==> !s.closed && Underway(s, key))
            && (outcome.Joined? ==> outcome.job < |s.jobs| && s.jobs[outcome.job].key == key
                                    && s.jobs[outcome.job].generation == s.Current() && !s.jobs[outcome.job].removed)
            && (outcome.Admitted? <==> !s.closed && !full && !Underway(s, key))
            && (outcome.Admitted? ==> outcome.job == |s.jobs| && after.closed == s.closed && after.shutdowns == s.shutdowns
                                      && after.jobs == s.jobs + [Job(key, s.Current(), false, false, false, false)])
            && (!outcome.Admitted? ==> after == s)
  {
    var s := Run(Initial(maxWorkers, maxQueued), steps);
    RunKeepsConserved(Initial(maxWorkers, maxQueued), steps);
    RunKeepsCapacity(Initial(maxWorkers, maxQueued), steps);
    RunKeepsCoalesced(maxWorkers, maxQueued, steps);
    UnderwayIffListed(s, key);
    if key.Some? && key.value in s.inflight { assert Listed(s, key.value, s.inflight[key.value]); }
    assert s.permits[s.Current()] + Outstanding(s.jobs, s.Current()) == s.capacity;
  }

  /** Exactly what the other steps do to the dispatcher: `close` shuts it, once; only `start` opens it
      again. */
  lemma OpensAndCloses(s: State, step: Step)
    requires Shaped(s)
    ensures Next(s, step).closed <==> step == MarkClosed || (s.closed && step != Start)
    ensures |Next(s, step).permits| == |s.permits| + if step == Start && s.closed then 1 else 0
    ensures Next(s, step).shutdowns
            == s.shutdowns + (if step == MarkClosed && !s.closed then 1 else 0) - (if step == ShutDown && s.shutdowns > 0 then 1 else 0)
    ensures var after := Next(s, step).accepting;
            && (forall g :: 0 <= g < s.Current() ==> after[g] == s.accepting[g])
            && (after[s.Current()] <==> s.accepting[s.Current()] && !(step == ShutDown && s.shutdowns > 0))
            && (|after| > |s.accepting| ==> after[|s.accepting|])
    ensures |Next(s, step).jobs| == |s.jobs| + if step.Arrive? && Arriving(s, step.key).1.Admitted? then 1 else 0
  {
  }

  /** Whatever a job has behind it, registering, finishing and the two halves of the callback complete
      it, and touch no other job. */
  lemma JobCompletes(s: State, j: nat)
    requires Shaped(s) && Coalesced(s) && j < |s.jobs|
    ensures var after := Next(Next(Next(Next(s, Register(j)), Finish(j)), Release(j)), Remove(j));
            && |after.jobs| == |s.jobs| && after.jobs[j] == Job(s.jobs[j].key, s.jobs[j].generation, true, true, true, true)
            && forall i :: 0 <= i < |s.jobs| && i != j ==> after.jobs[i] == s.jobs[i]
  {
    assert Progressed(s.jobs[j]);
  }

  /** Once every callback has released, every permit of every generation is free again. */
  lemma QuiescentIsFree(maxWorkers: int, maxQueued: int, steps: seq<Step>)
    requires OrderlyRun(Initial(maxWorkers, maxQueued), steps)
    requires var jobs := Run(Initial(maxWorkers, maxQueued), steps).jobs;
             forall j :: 0 <= j < |jobs| ==> jobs[j].released
    ensures var s := Run(Initial(maxWorkers, maxQueued), steps);
            forall g :: 0 <= g < |s.permits| ==> s.permits[g] == Bound(maxWorkers, maxQueued)
  {
    RunKeepsConserved(Initial(maxWorkers, maxQueued), steps);
    RunKeepsCapacity(Initial(maxWorkers, maxQueued), steps);
    var s := Run(Initial(maxWorkers, maxQueued), steps);
    forall g | 0 <= g < |s.permits|
      ensures s.permits[g] == Bound(maxWorkers, maxQueued)
    {
      AllReleased(s.jobs, g);
    }
  }

  lemma {:induction false} AllReleased(jobs: seq<Job>, g: nat)
    requires forall j :: 0 <= j < |jobs| ==> jobs[j].released
    ensures Outstanding(jobs, g) == 0
  {
    if jobs != [] { AllReleased(jobs[..|jobs| - 1], g); }
  }

  lemma StepKeepsCapacity(s: State, step: Step)
    requires Shaped(s)
    ensures Next(s, step).capacity == s.capacity
  {
  }

  lemma {:induction false} RunKeepsCapacity(s: State, steps: seq<Step>)
    requires Shaped(s)
    ensures Run(s, steps).capacity == s.capacity
  {
    if steps != [] {
      RunKeepsCapacity(s, steps[..|steps| - 1]);
      StepKeepsCapacity(Run(s, steps[..|steps| - 1]), steps[|steps| - 1]);
    }
  }

  /** Late events of an earlier generation neither add capacity to the current one nor delete
      entries from it. */
  lemma LateEventsAreIsolated(s: State, step: Step, j: nat)
    requires Shaped(s) && Coalesced(s) && j < |s.jobs| && s.jobs[j].generation != s.Current()
    requires step == Register(j) || step == Finish(j) || step == Release(j) || step == Remove(j)
    ensures var t := Next(s, step);
            && t.inflight == s.inflight && t.Current() == s.Current() && t.accepting == s.accepting
            && forall g :: 0 <= g < |s.permits| && g != s.jobs[j].generation ==> t.permits[g] == s.permits[g]
  {
  }

  /** The second half of a half-done `close` shuts down the executor that `start` has just made,
      and the next arrival takes a permit that nothing gives back. */
  lemma HalfClosedRestartLeaks(s: State) returns (steps: seq<Step>)
    requires Shaped(s) && Conserved(s) && s.closed && s.shutdowns > 0 && s.capacity > 0
    ensures OrderlyRun(Next(s, Start), steps) && !Conserved(Run(Next(s, Start), steps))
  {
    StartKeepsConserved(s);
    var t := Next(s, Start);
    var u := Next(t, ShutDown);
    steps := [ShutDown, Arrive(None)];
    var first := steps[..1];
    assert first == [ShutDown] && first[..0] == [];
    assert OrderlyRun(t, first[..0]) && Run(t, first[..0]) == t;
    assert OrderlyRun(t, first) && Run(t, first) == u;
    assert OrderlyRun(t, steps);
    assert Conserved(u);
    ArrivalConservesIff(u, None);
  }

  lemma RunOneMore(s: State, steps: seq<Step>, step: Step)
    requires Shaped(s)
    ensures Run(s, steps + [step]) == Next(Run(s, steps), step)
  {
    assert (steps + [step])[..|steps|] == steps;
  }

  lemma HalfClosedIsReached(maxWorkers: int, maxQueued: int)
    ensures var half := Run(Initial(maxWorkers, maxQueued), [MarkClosed]);
            half.closed && half.shutdowns == 1 && half.capacity > 0 && Conserved(half) && Healthy(half)
  {
    RunOneMore(Initial(maxWorkers, maxQueued), [], MarkClosed);
    assert [] + [MarkClosed] == [MarkClosed];
  }

  lemma RestartThenShutDownLeaks(half: State)
    requires Shaped(half) && Conserved(half) && half.closed && half.shutdowns > 0 && half.capacity > 0
    ensures !Conserved(Next(Next(Next(half, Start), ShutDown), Arrive(None)))
  {
    StartKeepsConserved(half);
    assert Conserved(Next(Next(half, Start), ShutDown));
    ArrivalConservesIff(Next(Next(half, Start), ShutDown), None);
  }

  /** How a dispatcher comes to leak: from the start, a `close` that has only marked it closed, a
      `start`, the other half of that `close`, and one arrival. */
  lemma CloseThenStartLeaks(maxWorkers: int, maxQueued: int)
    ensures !Conserved(Run(Initial(maxWorkers, maxQueued), [MarkClosed, Start, ShutDown, Arrive(None)]))
  {
    var s := Initial(maxWorkers, maxQueued);
    HalfClosedIsReached(maxWorkers, maxQueued);
    RunOneMore(s, [MarkClosed], Start);
    RunOneMore(s, [MarkClosed] + [Start], ShutDown);
    RunOneMore(s, [MarkClosed] + [Start] + [ShutDown], Arrive(None));
    assert [MarkClosed] + [Start] + [ShutDown] + [Arrive(None)] == [MarkClosed, Start, ShutDown, Arrive(None)];
    RestartThenShutDownLeaks(Run(s, [MarkClosed]));
  }

  /** The exact condition on `start`: every orderly continuation of a restart conserves permits if
      and only if no `close` is half done. */
  lemma RestartConservesIff(s: State)
    requires Shaped(s) && Conserved(s) && Healthy(s) && s.closed && s.capacity > 0
    ensures s.shutdowns == 0 <==>
            forall steps :: OrderlyRun(Next(s, Start), steps) ==> Conserved(Run(Next(s, Start), steps))
  {
    if s.shutdowns == 0 {
      StepKeepsConserved(s, Start);
      forall steps | OrderlyRun(Next(s, Start), steps)
        ensures Conserved(Run(Next(s, Start), steps))
      {
        RunKeepsConserved(Next(s, Start), steps);
      }
    } else {
      var steps := HalfClosedRestartLeaks(s);
    }
  }

  // ---------- the object ----------

  /** One method per atomic region of the program. A job's own region runs only where the program
      would run it, so each method asks for its step to be enabled. */
  class Dispatcher {
    const capacity: nat
    var permits: seq<nat>
    var accepting: seq<bool>
    var inflight: map<Key, nat>
    var closed: bool
    var jobs: seq<Job>
    var shutdowns: nat

    ghost function Snapshot(): State
      reads this
    {
      State(capacity, permits, accepting, inflight, closed, jobs, shutdowns)
    }

    ghost predicate Valid()
      reads this
    {
      Shaped(Snapshot())
    }

    constructor (maxWorkers: int, maxQueued: int)
      ensures Valid() && Snapshot() == Initial(maxWorkers, maxQueued)
    {
      var bound := Bound(maxWorkers, maxQueued);
      capacity := bound;
      permits, accepting, inflight, closed, jobs, shutdowns := [bound], [true], map[], false, [], 0;
    }

    method Admit(key: Option<Key>) returns (outcome: Outcome)
      requires Valid()
      modifies this
      ensures Valid() && (Snapshot(), outcome) == Arriving(old(Snapshot()), key)
    {
      var current := |permits| - 1;
      if closed {
        outcome := Busy;
      } else if key.Some? && key.value in inflight {
        outcome := Joined(inflight[key.value]);
      } else if permits[current] == 0 {
        outcome := Busy;
      } else {
        permits := permits[current := permits[current] - 1];
        if accepting[current] {
          var job := |jobs|;
          jobs := jobs + [NewJob(key, current)];
          if key.Some? { inflight := inflight[key.value := job]; }
          outcome := Admitted(job);
        } else {
          outcome := SubmitRaised;
        }
      }
    }

    method AddDoneCallback(job: nat)
      requires Valid() && Enabled(Snapshot(), Register(job))
      modifies this
      ensures Valid() && Snapshot() == Next(old(Snapshot()), Register(job))
    {
      jobs := jobs[job := jobs[job].(registered := true)];
    }

    method WorkReturns(job: nat)
      requires Valid() && Enabled(Snapshot(), Finish(job))
      modifies this
      ensures Valid() && Snapshot() == Next(old(Snapshot()), Finish(job))
    {
      jobs := jobs[job := jobs[job].(finished := true)];
    }

    /** First statement of the completion callback: release the semaphore the job was admitted by. */
    method CompletedReleases(job: nat)
      requires Valid() && Enabled(Snapshot(), Release(job))
      modifies this
      ensures Valid() && Snapshot() == Next(old(Snapshot()), Release(job))
    {
      var slots := jobs[job].generation;
      permits := permits[slots := permits[slots] + 1];
      jobs := jobs[job := jobs[job].(released := true)];
    }

    /** Second statement: delete the in-flight entry if it still holds this very future. */
    method CompletedRemoves(job: nat)
      requires Valid() && Enabled(Snapshot(), Remove(job))
      modifies this
      ensures Valid() && Snapshot() == Next(old(Snapshot()), Remove(job))
    {
      var key := jobs[job].key;
      if key.Some? && key.value in inflight && inflight[key.value] == job {
        inflight := inflight - {key.value};
      }
      jobs := jobs[job := jobs[job].(removed := true)];
    }

    method MarkClosed() returns (first: bool)
      requires Valid()
      modifies this
      ensures Valid() && Snapshot() == Next(old(Snapshot()), Step.MarkClosed) && first == !old(closed)
    {
      first := !closed;
      if first { closed, shutdowns := true, shutdowns + 1; }
    }

    /** The second half of `close`, outside the lock: whichever executor is current by then. */
    method ShutDown()
      requires Valid() && shutdowns > 0
      modifies this
      ensures Valid() && Snapshot() == Next(old(Snapshot()), Step.ShutDown)
    {
      accepting := accepting[|accepting| - 1 := false];
      shutdowns := shutdowns - 1;
    }

    method Start()
      requires Valid()
      modifies this
      ensures Valid() && Snapshot() == Next(old(Snapshot()), Step.Start)
    {
      if closed {
        permits, accepting := permits + [capacity], accepting + [true];
        inflight, closed := map[], false;
      }
    }
  }
}
