/**
 Plugin teardown, request by request: companion Deployments are scaled to zero, drained and deleted before
 the finalizer goes, among a deployment controller that moves replicas, people who edit the plugin, and a
 cache whose answers may be behind.
 */
module Drain {
  import opened Common

  /** A Deployment: the replica count asked for (nil means one), the pods there are, its revision. */
  datatype Deployment = Deployment(spec: Option<nat>, live: nat, revision: nat)
  {
    function Target(): nat {
      if spec.Some? then spec.value else 1
    }

    predicate Scaled() {
      spec == Some(0)
    }

    /** No pods are asked for and none are left. */
    predicate Settled() {
      Scaled() && live == 0
    }

    /** The controller may bring the pods to this number: toward the spec. */
    predicate CanReach(n: nat) {
      live <= n <= Target() || Target() <= n <= live
    }

    function ToZero(): Deployment {
      this.(spec := Some(0), revision := revision + 1)
    }
  }

  type Deployments = map<string, Deployment>

  /** `n` is gone, or asks for no pods and has none. */
  predicate Drained(ds: Deployments, n: string) {
    n in ds ==> ds[n].Settled()
  }

  /** What the API server holds: the Deployments, and of the plugin its workloads, revision and finalizer. */
  datatype Objects = Objects(ds: Deployments, workloads: seq<string>, revision: nat, finalizer: bool)

  /**
   A pass: the workloads and the plugin revision it read. `misread` is a record, for the theorems only, of
   the workloads whose read looked settled though they were not, and of what they really were.
   */
  datatype Pass = Pass(ws: seq<string>, read: nat, misread: map<string, Deployment>)

  /** Where the pass stands; `i` is the workload whose turn it is. */
  datatype Control =
    | Idle
    | Reading(p: Pass, i: nat, draining: bool)
    | Zeroing(p: Pass, i: nat, draining: bool, seen: Deployment)
    | Deleting(p: Pass, i: nat)
    | Releasing(p: Pass)
  {
    predicate Busy() {
      && (Reading? || Zeroing? || Deleting? ==> i < |p.ws|)
    }

    function Name(): string
      requires !Idle? && !Releasing? && Busy()
    {
      p.ws[i]
    }
  }

  datatype State = State(obj: Objects, control: Control)

  datatype Step =
    | Move(name: string, live: nat)                 // the controller
    | Edit(workloads: seq<string>)                  // somebody edits the plugin's spec
    | Touch                                         // somebody changes something else about it
    | Begin(ws: seq<string>, read: nat)
    | Get(answer: Option<Deployment>)
    | Scale(reached: bool, ok: bool)                // a request may take effect and still report an error
    | Delete(reached: bool, ok: bool)
    | Release(reached: bool, ok: bool)
    | Fail                                          // a read errs; the pass is over

  /** What a read may answer: nothing, or this or an earlier version, however old. */
  predicate MayAnswer(ds: Deployments, n: string, answer: Option<Deployment>) {
    answer.Some? && n in ds ==>
      answer.value.revision <= ds[n].revision && (answer.value.revision == ds[n].revision ==> answer.value == ds[n])
  }

  /** The answer says that there is nothing to wait for. */
  predicate LooksSettled(answer: Option<Deployment>) {
    answer.Some? ==> answer.value.Settled()
  }

  predicate Enabled(s: State, step: Step) {
    && s.control.Busy()
    && match step
       case Move(n, live) => n in s.obj.ds && s.obj.ds[n].CanReach(live)
       case Edit(_) => true
       case Touch => true
       case Begin(ws, read) =>
         s.control.Idle? && s.obj.finalizer && read <= s.obj.revision && (read == s.obj.revision ==> ws == s.obj.workloads)
       case Get(answer) => s.control.Reading? && MayAnswer(s.obj.ds, s.control.Name(), answer)
       case Scale(reached, ok) =>
         && s.control.Zeroing? && (ok ==> reached)
         && (reached ==> s.control.Name() in s.obj.ds && s.obj.ds[s.control.Name()].revision == s.control.seen.revision)
       case Delete(reached, ok) => s.control.Deleting? && (ok ==> reached)
       case Release(reached, ok) =>
         s.control.Releasing? && (ok ==> reached) && (reached ==> s.obj.finalizer && s.obj.revision == s.control.p.read)
       case Fail => !s.control.Idle?
  }

  /** The scaling loop at workload `i`, and what comes after it. */
  function AfterRead(p: Pass, i: nat, draining: bool): Control {
    if i < |p.ws| then Reading(p, i, draining) else if draining then Idle else AfterDelete(p, 0)
  }

  function AfterDelete(p: Pass, i: nat): Control {
    if i < |p.ws| then Deleting(p, i) else Releasing(p)
  }

  function AfterGet(c: Control, ds: Deployments, answer: Option<Deployment>): Control
    requires c.Reading? && c.Busy()
  {
    var n := c.Name();
    var p := if LooksSettled(answer) && !Drained(ds, n) then c.p.(misread := c.p.misread[n := ds[n]]) else c.p;
    if answer.Some? && !answer.value.Scaled() then Zeroing(p, c.i, c.draining, answer.value)
    else AfterRead(p, c.i + 1, c.draining || (answer.Some? && answer.value.live > 0))
  }

  function Take(s: State, step: Step): State
    requires Enabled(s, step)
  {
    var obj, c := s.obj, s.control;
    match step
    case Move(n, live) => s.(obj := obj.(ds := obj.ds[n := obj.ds[n].(live := live, revision := obj.ds[n].revision + 1)]))
    case Edit(workloads) => s.(obj := obj.(workloads := workloads, revision := obj.revision + 1))
    case Touch => s.(obj := obj.(revision := obj.revision + 1))
    case Begin(ws, read) => s.(control := AfterRead(Pass(ws, read, map[]), 0, false))
    case Get(answer) => s.(control := AfterGet(c, obj.ds, answer))
    case Scale(reached, ok) =>
      var n := c.Name();
      State(if reached then obj.(ds := obj.ds[n := obj.ds[n].ToZero()]) else obj,
            if ok then AfterRead(c.p, c.i + 1, c.draining || obj.ds[n].live > 0) else Idle)
    case Delete(reached, ok) =>
      State(if reached then obj.(ds := obj.ds - {c.Name()}) else obj, if ok then AfterDelete(c.p, c.i + 1) else Idle)
    case Release(reached, ok) => State(if reached then obj.(finalizer := false) else obj, Idle)
    case Fail => s.(control := Idle)
  }

  /** Runs: every step enabled where it is taken. */
  predicate Legal(s: State, steps: seq<Step>)
    decreases |steps|, 0
  {
    steps != [] ==>
      Legal(s, steps[..|steps| - 1]) && Enabled(Exec(s, steps[..|steps| - 1]), steps[|steps| - 1])
  }

  function Exec(s: State, steps: seq<Step>): State
    requires Legal(s, steps)
    decreases |steps|, 1
  {
    if steps == [] then s else Take(Exec(s, steps[..|steps| - 1]), steps[|steps| - 1])
  }

  lemma Extended(s: State, steps: seq<Step>, step: Step)
    requires Legal(s, steps) && Enabled(Exec(s, steps), step)
    ensures Legal(s, steps + [step]) && Exec(s, steps + [step]) == Take(Exec(s, steps), step)
  {
    assert (steps + [step])[..|steps|] == steps;
  }

  lemma {:induction false} LegalPrefix(s: State, steps: seq<Step>, k: nat)
    requires Legal(s, steps) && k <= |steps|
    ensures Legal(s, steps[..k]) && (k < |steps| ==> Enabled(Exec(s, steps[..k]), steps[k]))
    decreases |steps|
  {
    if k == |steps| {
      assert steps[..k] == steps;
    } else {
      var init := steps[..|steps| - 1];
      if k < |init| {
        LegalPrefix(s, init, k);
        assert init[..k] == steps[..k];
      } else {
        assert steps[..k] == init;
      }
    }
  }

  // ---------- what every state of every run satisfies ----------

  ghost predicate PassInv(obj: Objects, p: Pass) {
    p.read <= obj.revision && (p.read == obj.revision ==> p.ws == obj.workloads)
  }

  /** The workload is drained, or the pass was misled about it. */
  predicate Cleared(ds: Deployments, p: Pass, w: string) {
    Drained(ds, w) || w in p.misread
  }

  ghost predicate Inv(s: State) {
    var ds := s.obj.ds;
    && s.control.Busy()
    && match s.control
       case Idle => true
       case Reading(p, i, draining) =>
         PassInv(s.obj, p) && (!draining ==> forall j :: 0 <= j < i ==> Cleared(ds, p, p.ws[j]))
       case Zeroing(p, i, draining, seen) =>
         && PassInv(s.obj, p) && (!draining ==> forall j :: 0 <= j < i ==> Cleared(ds, p, p.ws[j]))
         && !seen.Scaled()
         && (p.ws[i] in ds ==> seen.revision <= ds[p.ws[i]].revision && (seen.revision == ds[p.ws[i]].revision ==> seen == ds[p.ws[i]]))
       case Deleting(p, i) =>
         && PassInv(s.obj, p) && (forall w :: w in p.ws ==> Cleared(ds, p, w))
         && (forall j :: 0 <= j < i ==> p.ws[j] !in ds)
       case Releasing(p) => PassInv(s.obj, p) && (forall w :: w in p.ws ==> w !in ds)
  }

  /** Leaving the scaling loop with everything cleared. */
  lemma LoopLeft(obj: Objects, p: Pass, i: nat, draining: bool)
    requires PassInv(obj, p) && i <= |p.ws|
    requires !draining ==> forall j :: 0 <= j < i ==> Cleared(obj.ds, p, p.ws[j])
    ensures Inv(State(obj, AfterRead(p, i, draining)))
  {
  }

  lemma GetKeeps(s: State, answer: Option<Deployment>)
    requires Inv(s) && Enabled(s, Get(answer))
    ensures Inv(Take(s, Get(answer)))
  {
    var c, ds := s.control, s.obj.ds;
    var n := c.Name();
    var q := if LooksSettled(answer) && !Drained(ds, n) then c.p.(misread := c.p.misread[n := ds[n]]) else c.p;
    if !(answer.Some? && !answer.value.Scaled()) {
      LoopLeft(s.obj, q, c.i + 1, c.draining || (answer.Some? && answer.value.live > 0));
    }
  }

  lemma ScaleKeeps(s: State, reached: bool, ok: bool)
    requires Inv(s) && Enabled(s, Scale(reached, ok))
    ensures Inv(Take(s, Scale(reached, ok)))
  {
    if ok {
      LoopLeft(Take(s, Scale(reached, ok)).obj, s.control.p, s.control.i + 1, s.control.draining || s.obj.ds[s.control.Name()].live > 0);
    }
  }

  lemma MoveKeeps(s: State, n: string, live: nat)
    requires Inv(s) && Enabled(s, Move(n, live))
    ensures Inv(Take(s, Move(n, live)))
  {
    var s' := Take(s, Move(n, live));
    assert forall w :: Drained(s.obj.ds, w) ==> Drained(s'.obj.ds, w);
    assert forall w :: w in s'.obj.ds <==> w in s.obj.ds;
  }

  lemma StepKeeps(s: State, step: Step)
    requires Inv(s) && Enabled(s, step)
    ensures Inv(Take(s, step))
  {
    match step
    case Move(n, live) => MoveKeeps(s, n, live);
    case Begin(ws, read) => LoopLeft(s.obj, Pass(ws, read, map[]), 0, false);
    case Get(answer) => GetKeeps(s, answer);
    case Scale(reached, ok) => ScaleKeeps(s, reached, ok);
    case _ =>
  }

  lemma {:induction false} RunKeeps(s: State, steps: seq<Step>)
    requires Inv(s) && Legal(s, steps)
    ensures Inv(Exec(s, steps))
    decreases |steps|
  {
    if steps != [] {
      RunKeeps(s, steps[..|steps| - 1]);
      StepKeeps(Exec(s, steps[..|steps| - 1]), steps[|steps| - 1]);
    }
  }

  // ---------- what a delete meets ----------

  /** The step of the run that misled its pass about `w`, which then was `d`. */
  ghost predicate Misleads(s: State, steps: seq<Step>, k: nat, w: string, d: Deployment) {
    && k < |steps| && Legal(s, steps[..k]) && steps[k].Get?
    && var at := Exec(s, steps[..k]);
    && at.control.Reading? && at.control.Busy() && at.control.Name() == w
    && w in at.obj.ds && at.obj.ds[w] == d && !d.Settled() && LooksSettled(steps[k].answer)
  }

  /** It happened in the pass under way. */
  ghost predicate MisledNow(s: State, steps: seq<Step>, k: nat, w: string, d: Deployment) {
    Misleads(s, steps, k, w, d) && forall j :: k <= j < |steps| ==> !steps[j].Begin?
  }

  lemma MisledLonger(s: State, steps: seq<Step>, k: nat, w: string, d: Deployment)
    requires steps != [] && !steps[|steps| - 1].Begin? && k < |steps| - 1
    ensures MisledNow(s, steps[..|steps| - 1], k, w, d) <==> MisledNow(s, steps, k, w, d)
  {
    var init := steps[..|steps| - 1];
    assert init[..k] == steps[..k] && init[k] == steps[k];
    assert forall j :: k <= j < |init| ==> init[j] == steps[j];
  }

  /** What a step does to the record of the pass under way. */
  lemma RecordStep(s: State, step: Step)
    requires Enabled(s, step) && !step.Begin? && !Take(s, step).control.Idle?
    ensures !s.control.Idle?
    ensures
      var p, p' := s.control.p, Take(s, step).control.p;
      && p'.ws == p.ws && p'.read == p.read
      && p'.misread == if step.Get? && LooksSettled(step.answer) && !Drained(s.obj.ds, s.control.Name())
                       then p.misread[s.control.Name() := s.obj.ds[s.control.Name()]] else p.misread
  {
  }

  /** The record a pass carries is true: what it holds, a read of this pass was misled about. */
  lemma {:induction false} RecordIsTrue(s: State, steps: seq<Step>, w: string)
    requires s.control.Idle? && Legal(s, steps) && !Exec(s, steps).control.Idle? && w in Exec(s, steps).control.p.misread
    ensures exists k: nat :: MisledNow(s, steps, k, w, Exec(s, steps).control.p.misread[w])
    decreases |steps|
  {
    var n := |steps| - 1;
    var init, step := steps[..n], steps[n];
    var before, d := Exec(s, init), Exec(s, steps).control.p.misread[w];
    if !step.Begin? {
      RecordStep(before, step);
      if step.Get? && LooksSettled(step.answer) && !Drained(before.obj.ds, before.control.Name()) && before.control.Name() == w {
        assert MisledNow(s, steps, n, w, d);
      } else {
        RecordIsTrue(s, init, w);
        var k: nat :| MisledNow(s, init, k, w, d);
        MisledLonger(s, steps, k, w, d);
      }
    }
  }

  /** And it is complete. */
  lemma {:induction false} RecordIsComplete(s: State, steps: seq<Step>, k: nat, w: string, d: Deployment)
    requires s.control.Idle? && Legal(s, steps) && !Exec(s, steps).control.Idle? && MisledNow(s, steps, k, w, d)
    ensures w in Exec(s, steps).control.p.misread
    decreases |steps|
  {
    var n := |steps| - 1;
    var before := Exec(s, steps[..n]);
    assert !steps[n].Begin?;
    RecordStep(before, steps[n]);
    if k < n {
      MisledLonger(s, steps, k, w, d);
      RecordIsComplete(s, steps[..n], k, w, d);
    }
  }

  /** For distinct workloads, those a pass was misled about stay as they were asked to be until it deletes them. */
  ghost predicate Tracked(s: State) {
    match s.control
    case Idle => true
    case Reading(p, i, _) => Distinct(p.ws) ==> TrackedTo(s.obj.ds, p, i)
    case Zeroing(p, i, _, _) => Distinct(p.ws) ==> TrackedTo(s.obj.ds, p, i)
    case Deleting(p, i) => Distinct(p.ws) ==> forall j :: i <= j < |p.ws| && p.ws[j] in p.misread ==> Same(s.obj.ds, p, p.ws[j])
    case Releasing(_) => true
  }

  ghost predicate Same(ds: Deployments, p: Pass, w: string) {
    w in p.misread && w in ds && ds[w].spec == p.misread[w].spec
  }

  ghost predicate TrackedTo(ds: Deployments, p: Pass, i: nat) {
    forall w :: w in p.misread ==> Same(ds, p, w) && exists j :: 0 <= j < i && j < |p.ws| && p.ws[j] == w
  }

  lemma TrackedAfterRead(ds: Deployments, p: Pass, i: nat, draining: bool, obj: Objects)
    requires obj.ds == ds && (Distinct(p.ws) ==> TrackedTo(ds, p, i))
    ensures Tracked(State(obj, AfterRead(p, i, draining)))
  {
  }

  lemma GetTracks(s: State, answer: Option<Deployment>)
    requires Inv(s) && Tracked(s) && Enabled(s, Get(answer))
    ensures Tracked(Take(s, Get(answer)))
  {
    var c, ds := s.control, s.obj.ds;
    var n := c.Name();
    var q := if LooksSettled(answer) && !Drained(ds, n) then c.p.(misread := c.p.misread[n := ds[n]]) else c.p;
    if Distinct(c.p.ws) {
      forall w | w in q.misread
        ensures Same(ds, q, w) && exists j :: 0 <= j < c.i + 1 && j < |q.ws| && q.ws[j] == w
      {
        if w == n {
          assert q.ws[c.i] == w;
        }
      }
    }
    TrackedAfterRead(ds, q, c.i + 1, c.draining || (answer.Some? && answer.value.live > 0), s.obj);
  }

  lemma ScaleTracks(s: State, reached: bool, ok: bool)
    requires Inv(s) && Tracked(s) && Enabled(s, Scale(reached, ok))
    ensures Tracked(Take(s, Scale(reached, ok)))
  {
    var c, s' := s.control, Take(s, Scale(reached, ok));
    if ok {
      if Distinct(c.p.ws) {
        assert c.Name() !in c.p.misread;
        assert TrackedTo(s'.obj.ds, c.p, c.i + 1);
      }
      TrackedAfterRead(s'.obj.ds, c.p, c.i + 1, c.draining || s.obj.ds[c.Name()].live > 0, s'.obj);
    }
  }

  lemma {:induction false} RunTracks(s: State, steps: seq<Step>)
    requires Inv(s) && Tracked(s) && Legal(s, steps)
    ensures Tracked(Exec(s, steps))
    decreases |steps|
  {
    if steps != [] {
      var init, step := steps[..|steps| - 1], steps[|steps| - 1];
      RunTracks(s, init);
      RunKeeps(s, init);
      match step
      case Get(answer) => GetTracks(Exec(s, init), answer);
      case Scale(reached, ok) => ScaleTracks(Exec(s, init), reached, ok);
      case _ =>
    }
  }

  /** With distinct workloads a pass reads each once, so it is misled about each once at most. */
  lemma {:induction false} MisledOnce(s: State, steps: seq<Step>, k: nat, w: string, d: Deployment)
    requires s.control.Idle? && Legal(s, steps) && !Exec(s, steps).control.Idle?
    requires Distinct(Exec(s, steps).control.p.ws) && MisledNow(s, steps, k, w, d)
    ensures w in Exec(s, steps).control.p.misread && Exec(s, steps).control.p.misread[w] == d
    decreases |steps|
  {
    var n := |steps| - 1;
    var before := Exec(s, steps[..n]);
    assert !steps[n].Begin?;
    RecordStep(before, steps[n]);
    if k < n {
      MisledLonger(s, steps, k, w, d);
      MisledOnce(s, steps[..n], k, w, d);
      RunTracks(s, steps[..n]);
      if steps[n].Get? {
        ReadsAnother(before, w);
      }
    }
  }

  lemma ReadsAnother(s: State, w: string)
    requires Tracked(s) && s.control.Reading? && s.control.Busy() && Distinct(s.control.p.ws) && w in s.control.p.misread
    ensures s.control.Name() != w
  {
    assert TrackedTo(s.obj.ds, s.control.p, s.control.i);
  }

  /**
   What a delete meets, at any point of any run and however far behind the reads:
   - every declared workload is drained, except those that a read of this pass made look settled;
   - with distinct names, the workload it deletes is undrained if and only if a read of this pass made it look
     settled, and it was not scaled then or still has its pods.
   */
  lemma DeletionMeets(s: State, steps: seq<Step>, ok: bool)
    requires s.control.Idle? && Legal(s, steps) && Enabled(Exec(s, steps), Delete(true, ok))
    ensures
      var before := Exec(s, steps);
      var ds, p, n := before.obj.ds, before.control.p, before.control.Name();
      && (forall w :: w in p.ws && !Drained(ds, w) ==> exists k: nat, d :: MisledNow(s, steps, k, w, d))
      && (Distinct(p.ws) ==>
            (!Drained(ds, n) <==>
               n in ds && exists k: nat, d :: MisledNow(s, steps, k, n, d) && (!d.Scaled() || ds[n].live > 0)))
  {
    RunKeeps(s, steps);
    RunTracks(s, steps);
    var before := Exec(s, steps);
    var ds, p, n := before.obj.ds, before.control.p, before.control.Name();
    forall w | w in p.ws && !Drained(ds, w)
      ensures exists k: nat :: MisledNow(s, steps, k, w, p.misread[w])
    {
      assert Cleared(ds, p, w);
      RecordIsTrue(s, steps, w);
    }
    if Distinct(p.ws) {
      forall k: nat, d | MisledNow(s, steps, k, n, d)
        ensures n in p.misread && p.misread[n] == d && Same(ds, p, n)
      {
        MisledOnce(s, steps, k, n, d);
      }
    }
  }

  /** The finalizer goes only when nothing that the plugin then declares is left. */
  lemma ReleaseMeets(s: State, steps: seq<Step>, ok: bool)
    requires s.control.Idle? && Legal(s, steps) && Enabled(Exec(s, steps), Release(true, ok))
    ensures
      var obj := Exec(s, steps).obj;
      forall w :: w in obj.workloads ==> w !in obj.ds
  {
    RunKeeps(s, steps);
  }

  /** Both, for every request of a run. */
  ghost predicate Safe(s: State, steps: seq<Step>) {
    forall k :: 0 <= k < |steps| ==>
      && Legal(s, steps[..k])
      && var at := Exec(s, steps[..k]);
      && (steps[k].Delete? && steps[k].reached ==>
            at.control.Deleting? && forall w :: w in at.control.p.ws && !Drained(at.obj.ds, w) ==>
              exists j: nat, d :: MisledNow(s, steps[..k], j, w, d))
      && (steps[k].Release? && steps[k].reached ==> forall w :: w in at.obj.workloads ==> w !in at.obj.ds)
  }

  lemma RunIsSafe(s: State, steps: seq<Step>)
    requires s.control.Idle? && Legal(s, steps)
    ensures Safe(s, steps)
  {
    forall k | 0 <= k < |steps|
      ensures Legal(s, steps[..k])
      ensures steps[k].Delete? && steps[k].reached ==>
        Exec(s, steps[..k]).control.Deleting?
        && forall w :: w in Exec(s, steps[..k]).control.p.ws && !Drained(Exec(s, steps[..k]).obj.ds, w) ==>
             exists j: nat, d :: MisledNow(s, steps[..k], j, w, d)
      ensures steps[k].Release? && steps[k].reached ==>
        forall w :: w in Exec(s, steps[..k]).obj.workloads ==> w !in Exec(s, steps[..k]).obj.ds
    {
      LegalPrefix(s, steps, k);
      if steps[k].Delete? && steps[k].reached {
        DeletionMeets(s, steps[..k], steps[k].ok);
      }
      if steps[k].Release? && steps[k].reached {
        ReleaseMeets(s, steps[..k], steps[k].ok);
      }
    }
  }

  /** Step `k` deletes `n`. */
  ghost predicate Removes(s: State, steps: seq<Step>, k: nat, n: string) {
    && k < |steps| && Legal(s, steps[..k]) && steps[k].Delete? && steps[k].reached
    && var at := Exec(s, steps[..k]);
    && at.control.Deleting? && at.control.Busy() && at.control.Name() == n && n in at.obj.ds
  }

  lemma StepRemoves(s: State, step: Step, n: string)
    requires Enabled(s, step)
    ensures n in Take(s, step).obj.ds ==> n in s.obj.ds
    ensures n in s.obj.ds && n !in Take(s, step).obj.ds ==> step.Delete? && step.reached && s.control.Name() == n
  {
  }

  /** Whatever disappears was deleted by a request, and whatever is there was there before. */
  lemma {:induction false} OnlyDeletesRemove(s: State, steps: seq<Step>, from: nat, n: string)
    requires Legal(s, steps) && from <= |steps|
    ensures Legal(s, steps[..from])
    ensures n in Exec(s, steps).obj.ds ==> n in Exec(s, steps[..from]).obj.ds
    ensures n in Exec(s, steps[..from]).obj.ds && n !in Exec(s, steps).obj.ds ==>
      exists k :: from <= k < |steps| && Removes(s, steps, k, n)
    decreases |steps|
  {
    LegalPrefix(s, steps, from);
    if from == |steps| {
      assert steps[..from] == steps;
    } else {
      var last := |steps| - 1;
      var init := steps[..last];
      assert init[..from] == steps[..from];
      OnlyDeletesRemove(s, init, from, n);
      StepRemoves(Exec(s, init), steps[last], n);
      if n in Exec(s, init).obj.ds && n !in Exec(s, steps).obj.ds {
        assert Removes(s, steps, last, n);
      } else if k :| from <= k < |init| && Removes(s, init, k, n) {
        assert init[..k] == steps[..k];
        assert Removes(s, steps, k, n);
      }
    }
  }

  // ---------- which reads mislead ----------

  /** Once drained, a workload stays so: only the operator scales, and nobody creates. */
  lemma {:induction false} DrainedStays(s: State, steps: seq<Step>, from: nat, n: string)
    requires Legal(s, steps) && from <= |steps|
    ensures Legal(s, steps[..from])
    ensures Drained(Exec(s, steps[..from]).obj.ds, n) ==> Drained(Exec(s, steps).obj.ds, n)
    decreases |steps|
  {
    LegalPrefix(s, steps, from);
    if from == |steps| {
      assert steps[..from] == steps;
    } else {
      var init := steps[..|steps| - 1];
      assert init[..from] == steps[..from];
      DrainedStays(s, init, from, n);
    }
  }

  /** The answer is what was so at some point of the run, `n` present or not. */
  ghost predicate OfTheRun(s: State, steps: seq<Step>, n: string, answer: Option<Deployment>) {
    exists j :: 0 <= j <= |steps| && Legal(s, steps[..j])
                && var ds := Exec(s, steps[..j]).obj.ds; answer == if n in ds then Some(ds[n]) else None
  }

  /** Every read answers what was so at some point of the run before it. */
  ghost predicate ReadsOfTheRun(s: State, steps: seq<Step>) {
    forall k :: 0 <= k < |steps| && steps[k].Get? ==>
      Legal(s, steps[..k]) && Exec(s, steps[..k]).control.Reading? && Exec(s, steps[..k]).control.Busy()
      && OfTheRun(s, steps[..k], Exec(s, steps[..k]).control.Name(), steps[k].answer)
  }

  /**
   Reads however stale do no harm as long as they answer what was so since the teardown began: then every
   delete meets all declared workloads drained. What misleads is a version from before it, or the denial of
   a Deployment that the cache has not seen yet.
   */
  lemma ReadsOfTheRunDoNoHarm(s: State, steps: seq<Step>, ok: bool)
    requires s.control.Idle? && Legal(s, steps) && Enabled(Exec(s, steps), Delete(true, ok)) && ReadsOfTheRun(s, steps)
    ensures
      var before := Exec(s, steps);
      forall w :: w in before.control.p.ws ==> Drained(before.obj.ds, w)
  {
    DeletionMeets(s, steps, ok);
    forall k: nat, w, d | MisledNow(s, steps, k, w, d)
      ensures false
    {
      NotMisled(s, steps[..k], w, steps[k].answer);
    }
  }

  lemma NotMisled(s: State, steps: seq<Step>, n: string, answer: Option<Deployment>)
    requires Legal(s, steps) && OfTheRun(s, steps, n, answer) && LooksSettled(answer)
    ensures Drained(Exec(s, steps).obj.ds, n)
  {
    var j :| 0 <= j <= |steps| && Legal(s, steps[..j])
             && var ds := Exec(s, steps[..j]).obj.ds; answer == if n in ds then Some(ds[n]) else None;
    DrainedStays(s, steps, j, n);
  }

  /**
   Any other answer that looks settled can do it: nothing, or an earlier version without pods. In this run the
   operator deletes a Deployment with live pods.
   */
  lemma MisreadDeletesLive(w: string, d: Deployment, answer: Option<Deployment>) returns (s: State, steps: seq<Step>)
    requires d.live > 0 && LooksSettled(answer) && MayAnswer(map[w := d], w, answer)
    ensures s.control.Idle? && Legal(s, steps) && Enabled(Exec(s, steps), Delete(true, true))
    ensures
      var before := Exec(s, steps);
      && before.control.Name() == w && w in before.obj.ds && before.obj.ds[w].live > 0
      && w !in Take(before, Delete(true, true)).obj.ds
  {
    s := State(Objects(map[w := d], [w], 0, true), Idle);
    assert Legal(s, []) && Exec(s, []) == s;
    Extended(s, [], Begin([w], 0));
    assert [] + [Begin([w], 0)] == [Begin([w], 0)];
    steps := [Begin([w], 0)];
    var s1 := Exec(s, steps);
    assert s1.control == Reading(Pass([w], 0, map[]), 0, false);
    Extended(s, steps, Get(answer));
    steps := steps + [Get(answer)];
    assert Exec(s, steps).control == Deleting(Pass([w], 0, map[w := d]), 0);
  }
}
