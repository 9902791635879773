/**
 The teardown as the operator runs it: the finalizer pass and its requeue loop, as methods whose every
 request is a step of the protocol, and the measure by which they end.
 */
module Teardown {
  import opened Common
  import opened Drain

  /** What the deployment controller may have done: pods moved toward the spec, the revision with them. */
  ghost predicate Moved(d: Deployment, d': Deployment) {
    && d'.spec == d.spec && d.CanReach(d'.live)
    && (d'.revision == d.revision ==> d' == d)
    && d'.revision >= d.revision
  }

  ghost predicate ControllerMoves(ds: Deployments, ds': Deployments) {
    ds'.Keys == ds.Keys && forall n :: n in ds ==> Moved(ds[n], ds'[n])
  }

  lemma MovesOn(a: Deployments, b: Deployments, c: Deployments)
    requires ControllerMoves(a, b) && ControllerMoves(b, c)
    ensures ControllerMoves(a, c)
  {
    forall n | n in a
      ensures Moved(a[n], c[n])
    {
      assert Moved(a[n], b[n]) && Moved(b[n], c[n]);
    }
  }

  // ---------- the measure ----------

  /** Declared workloads not yet asked to scale to zero. */
  function Unscaled(ds: Deployments, ws: seq<string>): nat {
    if ws == [] then 0
    else (if ws[0] in ds && !ds[ws[0]].Scaled() then 1 else 0) + Unscaled(ds, ws[1..])
  }

  /** Pods left in declared workloads that were asked to scale to zero. */
  function Draining(ds: Deployments, ws: seq<string>): nat {
    if ws == [] then 0
    else (if ws[0] in ds && ds[ws[0]].Scaled() then ds[ws[0]].live else 0) + Draining(ds, ws[1..])
  }

  function Remaining(ds: Deployments, ws: seq<string>): nat {
    if ws == [] then 0 else (if ws[0] in ds then 1 else 0) + Remaining(ds, ws[1..])
  }

  datatype Measure = Measure(unscaled: nat, draining: nat, remaining: nat, finalizer: nat)
  {
    predicate Less(m: Measure) {
      || unscaled < m.unscaled
      || (unscaled == m.unscaled && draining < m.draining)
      || (unscaled == m.unscaled && draining == m.draining && remaining < m.remaining)
      || (unscaled == m.unscaled && draining == m.draining && remaining == m.remaining && finalizer < m.finalizer)
    }

    predicate AtMost(m: Measure) {
      this == m || Less(m)
    }
  }

  function MeasureOf(ds: Deployments, ws: seq<string>, finalizer: bool): Measure {
    Measure(Unscaled(ds, ws), Draining(ds, ws), Remaining(ds, ws), if finalizer then 1 else 0)
  }

  /** The controller never raises the measure. */
  lemma {:induction false} MovesKeepMeasure(ds: Deployments, ds': Deployments, ws: seq<string>)
    requires ControllerMoves(ds, ds')
    ensures Unscaled(ds', ws) == Unscaled(ds, ws) && Draining(ds', ws) <= Draining(ds, ws) && Remaining(ds', ws) == Remaining(ds, ws)
  {
    if ws != [] {
      MovesKeepMeasure(ds, ds', ws[1..]);
    }
  }

  /** Scaling one declared workload lowers it. */
  lemma {:induction false} ScalingLowers(ds: Deployments, n: string, revision: nat, ws: seq<string>)
    requires n in ds && !ds[n].Scaled()
    ensures
      var ds' := ds[n := ds[n].(spec := Some(0), revision := revision)];
      Unscaled(ds', ws) <= Unscaled(ds, ws) && (n in ws ==> Unscaled(ds', ws) < Unscaled(ds, ws))
      && Remaining(ds', ws) == Remaining(ds, ws) && (n !in ws ==> Draining(ds', ws) == Draining(ds, ws) && Unscaled(ds', ws) == Unscaled(ds, ws))
  {
    if ws != [] {
      ScalingLowers(ds, n, revision, ws[1..]);
      assert ws == [ws[0]] + ws[1..];
    }
  }

  /** Deleting a workload lowers it if it was there. */
  lemma {:induction false} DeletingLowers(ds: Deployments, n: string, ws: seq<string>)
    ensures Unscaled(ds - {n}, ws) <= Unscaled(ds, ws) && Draining(ds - {n}, ws) <= Draining(ds, ws)
    ensures Remaining(ds - {n}, ws) <= Remaining(ds, ws)
    ensures n in ws && n in ds ==> Remaining(ds - {n}, ws) < Remaining(ds, ws)
  {
    if ws != [] {
      DeletingLowers(ds, n, ws[1..]);
      assert ws == [ws[0]] + ws[1..];
    }
  }

  lemma {:induction false} UnscaledZero(ds: Deployments, ws: seq<string>)
    ensures Unscaled(ds, ws) == 0 <==> forall w :: w in ws && w in ds ==> ds[w].Scaled()
  {
    if ws != [] {
      UnscaledZero(ds, ws[1..]);
      assert ws == [ws[0]] + ws[1..];
    }
  }

  lemma {:induction false} DrainingCounts(ds: Deployments, ws: seq<string>, w: string)
    requires w in ws && w in ds && ds[w].Scaled()
    ensures Draining(ds, ws) >= ds[w].live
  {
    if w != ws[0] {
      assert ws == [ws[0]] + ws[1..];
      DrainingCounts(ds, ws[1..], w);
    }
  }

  /** A workload with pods left to go. */
  function FirstDraining(ds: Deployments, ws: seq<string>): (n: string)
    requires Draining(ds, ws) > 0
    ensures n in ws && n in ds && ds[n].Scaled() && ds[n].live > 0
  {
    if ws[0] in ds && ds[ws[0]].Scaled() && ds[ws[0]].live > 0 then ws[0] else FirstDraining(ds, ws[1..])
  }

  lemma {:induction false} TerminatingLowers(ds: Deployments, n: string, ws: seq<string>)
    requires n in ds && ds[n].Scaled() && ds[n].live > 0
    ensures
      var ds' := ds[n := ds[n].(live := ds[n].live - 1, revision := ds[n].revision + 1)];
      Draining(ds', ws) <= Draining(ds, ws) && (n in ws ==> Draining(ds', ws) < Draining(ds, ws))
  {
    if ws != [] {
      TerminatingLowers(ds, n, ws[1..]);
      assert ws == [ws[0]] + ws[1..];
    }
  }

  /** A fair spell of the controller: if only pods already told to go are left, some of them go. */
  ghost predicate FairMoves(ds: Deployments, ds': Deployments, ws: seq<string>) {
    && ControllerMoves(ds, ds')
    && (Unscaled(ds, ws) == 0 && Draining(ds, ws) > 0 ==> Draining(ds', ws) < Draining(ds, ws))
  }

  // ---------- the cluster ----------

  datatype PassResult = NoFinalizer | Requeue | Done | Error

  /**
   What others may still do to the teardown: how often somebody edits the plugin, and how many requests and
   spells are spoiled before the teardown next moves forward. Both numbers are arbitrary.
   */
  datatype Trouble = Trouble(edits: nat, faults: nat)

  /** What others may have done to the plugin. */
  ghost predicate Turned(obj: Objects, t: Trouble, obj': Objects, t': Trouble) {
    && obj'.revision >= obj.revision && t'.edits <= t.edits && t'.faults <= t.faults
    && (t'.edits == t.edits ==> obj'.workloads == obj.workloads)
    && (obj'.revision == obj.revision ==> t'.edits == t.edits)
    && (obj'.revision > obj.revision ==> t'.edits < t.edits || t'.faults < t.faults)
  }

  /**
   The cluster as the finalizer pass sees it. Between any two requests the controller moves and others edit,
   and reads may be behind. `trace` holds every step since the start, and `control` where the pass stands.
   */
  class Cluster {
    var obj: Objects
    var trouble: Trouble
    ghost var control: Control
    ghost var trace: seq<Step>
    ghost const start: State

    constructor (obj: Objects, trouble: Trouble)
      ensures this.obj == obj && this.trouble == trouble && Valid() && control.Idle? && trace == []
    {
      this.obj, this.trouble := obj, trouble;
      control, trace, start := Idle, [], State(obj, Idle);
    }

    ghost function Now(): State
      reads this
    {
      State(obj, control)
    }

    /** What happened so far is a run of the protocol, and led here. */
    ghost predicate Valid()
      reads this
    {
      start.control.Idle? && Legal(start, trace) && Exec(start, trace) == Now()
    }

    /** The step `s` took to be where we are now. */
    ghost method Log(s: State, step: Step)
      requires Legal(start, trace) && start.control.Idle? && Exec(start, trace) == s
      requires Enabled(s, step) && obj == Take(s, step).obj
      modifies this`trace, this`control
      ensures Valid() && trace == old(trace) + [step] && control == Take(s, step).control
    {
      Extended(start, trace, step);
      trace, control := trace + [step], Take(s, step).control;
    }

    method Others()
      requires Valid() && control.Busy()
      modifies this
      ensures Valid() && old(trace) <= trace && control == old(control)
      ensures ControllerMoves(old(obj).ds, obj.ds) && obj.finalizer == old(obj).finalizer
      ensures Turned(old(obj), old(trouble), obj, trouble)
    {
      MoveAll();
      EditPlugin();
      var touched := Spoiled();
      if touched {
        ghost var s := Now();
        obj := obj.(revision := obj.revision + 1);
        Log(s, Touch);
      }
    }

    method MoveAll()
      requires Valid() && control.Busy()
      modifies this`obj, this`trace, this`control
      ensures Valid() && old(trace) <= trace && control == old(control)
      ensures ControllerMoves(old(obj).ds, obj.ds) && obj == old(obj).(ds := obj.ds)
    {
      var rest := obj.ds.Keys;
      while rest != {}
        invariant Valid() && old(trace) <= trace && control == old(control) && obj == old(obj).(ds := obj.ds)
        invariant rest <= obj.ds.Keys && ControllerMoves(old(obj).ds, obj.ds)
        invariant forall n :: n in rest ==> obj.ds[n] == old(obj).ds[n]
        decreases rest
      {
        var n :| n in rest;
        var live: nat := *;
        if live != obj.ds[n].live && obj.ds[n].CanReach(live) {
          ghost var s := Now();
          obj := obj.(ds := obj.ds[n := obj.ds[n].(live := live, revision := obj.ds[n].revision + 1)]);
          Log(s, Move(n, live));
        }
        rest := rest - {n};
      }
    }

    method EditPlugin()
      requires Valid() && control.Busy()
      modifies this
      ensures Valid() && old(trace) <= trace && control == old(control)
      ensures obj.ds == old(obj).ds && obj.finalizer == old(obj).finalizer
      ensures Turned(old(obj), old(trouble), obj, trouble) && trouble.faults == old(trouble).faults
    {
      var edits: int := *;
      edits := if 0 <= edits <= trouble.edits then edits else 0;
      for i := 0 to edits
        invariant Valid() && old(trace) <= trace && control == old(control)
        invariant obj.ds == old(obj).ds && obj.finalizer == old(obj).finalizer
        invariant trouble == old(trouble).(edits := old(trouble).edits - i) && obj.revision == old(obj).revision + i
        invariant i == 0 ==> obj == old(obj)
      {
        ghost var s := Now();
        var workloads := *;
        obj := obj.(workloads := workloads, revision := obj.revision + 1);
        Log(s, Edit(workloads));
        trouble := trouble.(edits := trouble.edits - 1);
      }
    }

    /** Whether something spoils the request at hand. */
    method Spoiled() returns (s: bool)
      modifies this`trouble
      ensures s ==> old(trouble).faults > 0 && trouble == old(trouble).(faults := old(trouble).faults - 1)
      ensures !s ==> trouble == old(trouble)
    {
      s := *;
      s := s && trouble.faults > 0;
      if s {
        trouble := trouble.(faults := trouble.faults - 1);
      }
    }

    /** What the pass works from: the plugin as it is, or spoiled, as it was. */
    method ReadPlugin() returns (ws: seq<string>, read: nat)
      requires Valid() && control.Idle? && obj.finalizer
      modifies this
      ensures Valid() && old(trace) <= trace && obj == old(obj) && trouble.edits == old(trouble).edits
      ensures control == AfterRead(Pass(ws, read, map[]), 0, false)
      ensures read <= obj.revision && (read == obj.revision ==> ws == obj.workloads)
      ensures trouble.faults <= old(trouble).faults && (read != obj.revision ==> trouble.faults < old(trouble).faults)
    {
      ws, read := obj.workloads, obj.revision;
      var spoiled := Spoiled();
      var older: nat, was := *, *;
      if spoiled && older < obj.revision {
        ws, read := was, older;
      }
      Log(Now(), Begin(ws, read));
    }

    /** Unspoiled, the Deployment as it is; spoiled, an error, any earlier version, or nothing. */
    method Get(n: string) returns (ok: bool, d: Option<Deployment>)
      requires Valid() && control.Reading? && control.Busy() && control.Name() == n
      modifies this
      ensures Valid() && old(trace) <= trace && obj.finalizer == old(obj).finalizer
      ensures ControllerMoves(old(obj).ds, obj.ds) && Turned(old(obj), old(trouble), obj, trouble)
      ensures if ok then MayAnswer(obj.ds, n, d) && control == AfterGet(old(control), obj.ds, d) else control.Idle?
      ensures !ok || d != (if n in obj.ds then Some(obj.ds[n]) else None) ==> trouble.faults < old(trouble).faults
    {
      Others();
      ok, d := true, if n in obj.ds then Some(obj.ds[n]) else None;
      var spoiled := Spoiled();
      if spoiled {
        ok := *;
        var answer: Option<Deployment> := *;
        if MayAnswer(obj.ds, n, answer) {
          d := answer;
        }
      }
      Log(Now(), if ok then Drain.Get(d) else Fail);
    }

    /** Others slip in before a request only if it is spoiled. */
    method Interfered() returns (spoiled: bool)
      requires Valid() && control.Busy()
      modifies this
      ensures Valid() && old(trace) <= trace && control == old(control) && obj.finalizer == old(obj).finalizer
      ensures ControllerMoves(old(obj).ds, obj.ds) && Turned(old(obj), old(trouble), obj, trouble)
      ensures if spoiled then trouble.faults < old(trouble).faults else obj == old(obj)
    {
      spoiled := Spoiled();
      if spoiled {
        Others();
      }
    }

    /**
     Asks for no replicas, unless the Deployment moved on since it was read; `mid` is what the request met. The
     answer carries the pods as they then are. A request may take effect and still report an error.
     */
    method ScaleToZero(n: string, read: nat) returns (ok: bool, live: nat, ghost mid: Deployments, ghost reached: bool)
      requires Valid() && control.Zeroing? && control.Busy() && control.Name() == n && control.seen.revision == read
      modifies this
      ensures Valid() && old(trace) <= trace && obj.finalizer == old(obj).finalizer
      ensures ControllerMoves(old(obj).ds, mid) && Turned(old(obj), old(trouble), obj, trouble)
      ensures reached ==> n in mid && mid[n].revision == read
      ensures obj.ds == if reached then mid[n := mid[n].ToZero()] else mid
      ensures ok ==> reached && live == mid[n].live
      ensures control == if ok then AfterRead(old(control).p, old(control).i + 1, old(control).draining || live > 0) else Idle
      ensures !ok && n in old(obj).ds && old(obj).ds[n].revision == read ==> trouble.faults < old(trouble).faults
    {
      var spoiled := Interfered();
      mid := obj.ds;
      var refused: bool, lost: bool := *, *;
      var done := n in obj.ds && obj.ds[n].revision == read && !(spoiled && refused);
      reached := done;
      ok, live := done && !(spoiled && lost), 0;
      ghost var s := Now();
      if done {
        live := obj.ds[n].live;
        obj := obj.(ds := obj.ds[n := obj.ds[n].ToZero()]);
      }
      Log(s, Scale(reached, ok));
    }

    /** Deletes by name; a missing Deployment is fine. */
    method Delete(n: string) returns (ok: bool, ghost mid: Deployments, ghost reached: bool)
      requires Valid() && control.Deleting? && control.Busy() && control.Name() == n
      modifies this
      ensures Valid() && old(trace) <= trace && obj.finalizer == old(obj).finalizer
      ensures ControllerMoves(old(obj).ds, mid) && Turned(old(obj), old(trouble), obj, trouble)
      ensures obj.ds == if reached then mid - {n} else mid
      ensures control == if ok then AfterDelete(old(control).p, old(control).i + 1) else Idle
      ensures (ok ==> reached) && (!ok ==> trouble.faults < old(trouble).faults)
    {
      Others();
      mid := obj.ds;
      var spoiled := Spoiled();
      var refused: bool := *;
      var done := !(spoiled && refused);
      reached, ok := done, !spoiled;
      ghost var s := Now();
      if done {
        obj := obj.(ds := obj.ds - {n});
      }
      Log(s, Drain.Delete(reached, ok));
    }

    /** Writes the plugin without its finalizer, unless it was changed since it was read. */
    method RemoveFinalizer(read: nat) returns (ok: bool)
      requires Valid() && control.Releasing? && control.p.read == read && obj.finalizer
      modifies this
      ensures Valid() && old(trace) <= trace && control.Idle?
      ensures ControllerMoves(old(obj).ds, obj.ds) && Turned(old(obj), old(trouble), obj, trouble)
      ensures ok ==> !obj.finalizer
      ensures !obj.finalizer ==> obj.revision == read && forall w :: w in obj.workloads ==> w !in obj.ds
      ensures !ok && old(obj).revision == read ==> trouble.faults < old(trouble).faults || trouble.edits < old(trouble).edits
    {
      Others();
      var spoiled := Spoiled();
      var refused: bool := *;
      var done := read == obj.revision && !(spoiled && refused);
      ok := done && !spoiled;
      ghost var s := Now();
      if done {
        ReleaseMeets(start, trace, ok);
        obj := obj.(finalizer := false);
      }
      Log(s, Release(done, ok));
    }

    /** A pod that was told to go goes. */
    method Terminate(ws: seq<string>)
      requires Valid() && control.Idle? && Draining(obj.ds, ws) > 0
      modifies this`obj, this`trace, this`control
      ensures Valid() && old(trace) <= trace && control.Idle? && obj == old(obj).(ds := obj.ds)
      ensures ControllerMoves(old(obj).ds, obj.ds) && Draining(obj.ds, ws) < Draining(old(obj).ds, ws)
    {
      var n := FirstDraining(obj.ds, ws);
      ghost var s := Now();
      TerminatingLowers(obj.ds, n, ws);
      var d := obj.ds[n];
      obj := obj.(ds := obj.ds[n := d.(live := d.live - 1, revision := d.revision + 1)]);
      Log(s, Move(n, d.live - 1));
    }

    /** Time between passes: controllers move, and unless the spell is spoiled, a pod told to go goes. */
    method Spell(ws: seq<string>)
      requires Valid() && control.Idle?
      modifies this
      ensures Valid() && old(trace) <= trace && control.Idle? && obj.finalizer == old(obj).finalizer
      ensures ControllerMoves(old(obj).ds, obj.ds) && Turned(old(obj), old(trouble), obj, trouble)
      ensures trouble.faults == old(trouble).faults ==> FairMoves(old(obj).ds, obj.ds, ws)
    {
      var spoiled := Spoiled();
      Others();
      ghost var mid := obj.ds;
      MovesKeepMeasure(old(obj).ds, mid, ws);
      if !spoiled && Draining(obj.ds, ws) > 0 {
        Terminate(ws);
        MovesOn(old(obj).ds, mid, obj.ds);
      }
    }

    /** Others may spoil any number of requests again. */
    method Renew()
      modifies this`trouble
      ensures trouble.edits == old(trouble).edits
    {
      var faults: nat := *;
      trouble := trouble.(faults := faults);
    }
  }

  // ---------- the pass ----------

  /** A pass that gets through lowers the measure, unless pods that were already told to go are still there. */
  ghost predicate Progress(ds: Deployments, ds': Deployments, ws: seq<string>, released: bool) {
    && MeasureOf(ds', ws, !released).AtMost(MeasureOf(ds, ws, true))
    && (Unscaled(ds, ws) > 0 || Draining(ds, ws) == 0 ==> MeasureOf(ds', ws, !released).Less(MeasureOf(ds, ws, true)))
  }

  /** The scaling step: nothing appears or disappears, and the first components of the measure do not grow. */
  ghost predicate Down(ds: Deployments, ds': Deployments, ws: seq<string>) {
    && ds'.Keys == ds.Keys && Remaining(ds', ws) == Remaining(ds, ws)
    && (Unscaled(ds', ws) < Unscaled(ds, ws) || (Unscaled(ds', ws) == Unscaled(ds, ws) && Draining(ds', ws) <= Draining(ds, ws)))
    && (forall n :: n in ds' && ds[n].Scaled() ==> ds'[n].Scaled() && ds'[n].live <= ds[n].live)
  }

  lemma MovesGoDown(ds: Deployments, ds': Deployments, ws: seq<string>)
    requires ControllerMoves(ds, ds')
    ensures Down(ds, ds', ws)
  {
    MovesKeepMeasure(ds, ds', ws);
    forall n | n in ds' && ds[n].Scaled()
      ensures ds'[n].Scaled() && ds'[n].live <= ds[n].live
    {
      assert Moved(ds[n], ds'[n]);
    }
  }

  lemma ScalingGoesDown(ds: Deployments, n: string, ws: seq<string>)
    requires n in ds && !ds[n].Scaled()
    ensures Down(ds, ds[n := ds[n].ToZero()], ws)
  {
    ScalingLowers(ds, n, ds[n].revision + 1, ws);
  }

  lemma DownOn(a: Deployments, b: Deployments, c: Deployments, ws: seq<string>)
    requires Down(a, b, ws) && Down(b, c, ws)
    ensures Down(a, c, ws)
  {
  }

  /** The update of the scaling loop, for a Deployment that was read as `d`. */
  method ZeroOne(c: Cluster, n: string, d: Deployment, ghost ws: seq<string>) returns (ok: bool, live: nat)
    requires c.Valid() && c.control.Zeroing? && c.control.Busy() && c.control.Name() == n && c.control.seen == d
    requires !d.Scaled() && MayAnswer(c.obj.ds, n, Some(d))
    modifies c
    ensures c.Valid() && old(c.trace) <= c.trace && c.obj.finalizer == old(c.obj).finalizer
    ensures Turned(old(c.obj), old(c.trouble), c.obj, c.trouble) && Down(old(c.obj).ds, c.obj.ds, ws)
    ensures c.control == if ok then AfterRead(old(c.control).p, old(c.control).i + 1, old(c.control).draining || live > 0) else Idle
    ensures ok ==> n in c.obj.ds && c.obj.ds[n].Scaled() && n in old(c.obj).ds && !old(c.obj).ds[n].Scaled()
    ensures !ok && n in old(c.obj).ds && old(c.obj).ds[n] == d ==> c.trouble.faults < old(c.trouble).faults
  {
    ghost var ds1, mid, reached;
    ds1 := c.obj.ds;
    ok, live, mid, reached := c.ScaleToZero(n, d.revision);
    MovesGoDown(ds1, mid, ws);
    if reached {
      assert Moved(ds1[n], mid[n]) && d == ds1[n] == mid[n];
      ScalingGoesDown(mid, n, ws);
      DownOn(ds1, mid, c.obj.ds, ws);
    }
  }

  /** One turn of the scaling loop; `drains` reports pods, and `q` is the pass with its record after it. */
  method ScaleOne(c: Cluster, n: string, ghost ws: seq<string>) returns (ok: bool, drains: bool, ghost q: Pass)
    requires c.Valid() && c.control.Reading? && c.control.Busy() && c.control.Name() == n
    modifies c
    ensures c.Valid() && old(c.trace) <= c.trace && c.obj.finalizer == old(c.obj).finalizer
    ensures Turned(old(c.obj), old(c.trouble), c.obj, c.trouble) && Down(old(c.obj).ds, c.obj.ds, ws)
    ensures q.ws == old(c.control).p.ws && q.read == old(c.control).p.read
    ensures c.control == if ok then AfterRead(q, old(c.control).i + 1, old(c.control).draining || drains) else Idle
    ensures !ok ==> c.trouble.faults < old(c.trouble).faults
    ensures ok && c.trouble.faults == old(c.trouble).faults ==>
              && q == old(c.control).p && (n in c.obj.ds ==> c.obj.ds[n].Scaled())
              && (drains ==> n in old(c.obj).ds && (old(c.obj).ds[n].Scaled() ==> old(c.obj).ds[n].live > 0))
  {
    ghost var ds1, control1 := c.obj.ds, c.control;
    q := control1.p;
    var d;
    ok, d := c.Get(n);
    ghost var ds2 := c.obj.ds;
    MovesGoDown(ds1, ds2, ws);
    drains := ok && d.Some? && d.value.live > 0;
    if ok {
      q := if LooksSettled(d) && !Drained(ds2, n) then q.(misread := q.misread[n := ds2[n]]) else q;
    }
    if ok && d.Some? && d.value.spec != Some(0) {
      var live;
      ok, live := ZeroOne(c, n, d.value, ws);
      DownOn(ds1, ds2, c.obj.ds, ws);
      drains := ok && live > 0;
    }
  }

  /** Scales every workload of the pass to zero and reports whether pods remain. */
  method ScaleAll(c: Cluster, ws: seq<string>, ghost read: nat, ghost declared: seq<string>)
    returns (ok: bool, draining: bool, ghost q: Pass)
    requires c.Valid() && c.control == AfterRead(Pass(ws, read, map[]), 0, false)
    modifies c
    ensures c.Valid() && old(c.trace) <= c.trace && c.obj.finalizer == old(c.obj).finalizer
    ensures Turned(old(c.obj), old(c.trouble), c.obj, c.trouble) && Down(old(c.obj).ds, c.obj.ds, declared)
    ensures q.ws == ws && q.read == read
    ensures c.control == if ok && !draining then AfterDelete(q, 0) else Idle
    ensures !ok ==> c.trouble.faults < old(c.trouble).faults
    ensures ok && !draining ==> forall w :: w in ws ==> Cleared(c.obj.ds, q, w)
    ensures ok && c.trouble.faults == old(c.trouble).faults ==>
              && q.misread == map[] && (forall w :: w in ws && w in c.obj.ds ==> c.obj.ds[w].Scaled())
              && (draining ==> exists w :: w in ws && w in old(c.obj).ds && (old(c.obj).ds[w].Scaled() ==> old(c.obj).ds[w].live > 0))
  {
    ghost var obj0, trouble0 := c.obj, c.trouble;
    ok, draining, q := true, false, Pass(ws, read, map[]);
    MovesGoDown(obj0.ds, obj0.ds, declared);
    for i := 0 to |ws|
      invariant ok && c.Valid() && old(c.trace) <= c.trace && c.obj.finalizer == obj0.finalizer
      invariant Turned(obj0, trouble0, c.obj, c.trouble) && Down(obj0.ds, c.obj.ds, declared)
      invariant q.ws == ws && q.read == read && c.control == AfterRead(q, i, draining)
      invariant c.trouble.faults == trouble0.faults ==>
        && q.misread == map[] && (forall j :: 0 <= j < i && ws[j] in c.obj.ds ==> c.obj.ds[ws[j]].Scaled())
        && (draining ==> exists w :: w in ws && w in obj0.ds && (obj0.ds[w].Scaled() ==> obj0.ds[w].live > 0))
    {
      var drains;
      ghost var obj1 := c.obj;
      ok, drains, q := ScaleOne(c, ws[i], declared);
      DownOn(obj0.ds, obj1.ds, c.obj.ds, declared);
      if !ok { return; }
      draining := draining || drains;
    }
    if !draining {
      RunKeeps(c.start, c.trace);
    }
  }

  /** No component of the measure grew. */
  ghost predicate NoMore(ds: Deployments, ds': Deployments, ws: seq<string>) {
    Unscaled(ds', ws) <= Unscaled(ds, ws) && Draining(ds', ws) <= Draining(ds, ws) && Remaining(ds', ws) <= Remaining(ds, ws)
  }

  /** One turn of the deletion loop. */
  method DeleteOne(c: Cluster, n: string, ghost ws: seq<string>) returns (ok: bool)
    requires c.Valid() && c.control.Deleting? && c.control.Busy() && c.control.Name() == n
    modifies c
    ensures c.Valid() && old(c.trace) <= c.trace && c.obj.finalizer == old(c.obj).finalizer
    ensures Turned(old(c.obj), old(c.trouble), c.obj, c.trouble) && NoMore(old(c.obj).ds, c.obj.ds, ws)
    ensures c.control == if ok then AfterDelete(old(c.control).p, old(c.control).i + 1) else Idle
    ensures !ok ==> c.trouble.faults < old(c.trouble).faults
    ensures c.obj.ds.Keys <= old(c.obj).ds.Keys && (ok ==> n !in c.obj.ds)
  {
    ghost var ds1 := c.obj.ds;
    ghost var mid, reached;
    ok, mid, reached := c.Delete(n);
    MovesKeepMeasure(ds1, mid, ws);
    DeletingLowers(mid, n, ws);
  }

  /** Deletes every workload of the pass. */
  method DeleteAll(c: Cluster, ws: seq<string>, ghost q: Pass, ghost declared: seq<string>) returns (ok: bool)
    requires c.Valid() && q.ws == ws && c.control == AfterDelete(q, 0)
    modifies c
    ensures c.Valid() && old(c.trace) <= c.trace && c.obj.finalizer == old(c.obj).finalizer
    ensures Turned(old(c.obj), old(c.trouble), c.obj, c.trouble) && NoMore(old(c.obj).ds, c.obj.ds, declared)
    ensures c.control == if ok then Releasing(q) else Idle
    ensures !ok ==> c.trouble.faults < old(c.trouble).faults
    ensures ok ==> forall w :: w in ws ==> w !in c.obj.ds
  {
    ghost var obj0, trouble0 := c.obj, c.trouble;
    ok := true;
    for i := 0 to |ws|
      invariant ok && c.Valid() && old(c.trace) <= c.trace && c.obj.finalizer == obj0.finalizer
      invariant Turned(obj0, trouble0, c.obj, c.trouble) && NoMore(obj0.ds, c.obj.ds, declared)
      invariant c.control == AfterDelete(q, i) && forall j :: 0 <= j < i ==> ws[j] !in c.obj.ds
    {
      ghost var ds1 := c.obj.ds;
      ok := DeleteOne(c, ws[i], declared);
      assert forall j :: 0 <= j < i ==> ws[j] !in ds1 && ws[j] !in c.obj.ds;
      if !ok { return; }
    }
  }

  /** Everything that is gone was deleted by a step of the trace from `from` on. */
  ghost predicate Told(c: Cluster, ds0: Deployments, from: nat)
    reads c
  {
    && c.obj.ds.Keys <= ds0.Keys
    && forall n :: n in ds0 && n !in c.obj.ds ==> exists k :: from <= k < |c.trace| && Removes(c.start, c.trace, k, n)
  }

  lemma Tells(c: Cluster, before: State, from: seq<Step>)
    requires c.Valid() && from <= c.trace && Legal(c.start, from) && Exec(c.start, from) == before
    ensures Told(c, before.obj.ds, |from|)
  {
    assert c.trace[..|from|] == from;
    forall n
      ensures n in c.obj.ds ==> n in before.obj.ds
      ensures n in before.obj.ds && n !in c.obj.ds ==> exists k :: |from| <= k < |c.trace| && Removes(c.start, c.trace, k, n)
    {
      OnlyDeletesRemove(c.start, c.trace, |from|, n);
    }
  }

  /**
   One finalizer pass. It is a run of the protocol, so whatever the others do between its requests and however
   far its reads are behind, its deletes and its release meet what `DeletionMeets` and `ReleaseMeets` say; what
   disappears was deleted by one of them; a pass that requeues deletes nothing; the measure never rises, and it
   falls when the pass gets through unspoiled.
   */
  method Finalize(c: Cluster) returns (r: PassResult)
    requires c.Valid() && c.control.Idle?
    modifies c
    ensures c.Valid() && c.control.Idle? && old(c.trace) <= c.trace
    ensures Safe(c.start, c.trace) && Told(c, old(c.obj).ds, |old(c.trace)|)
    ensures Turned(old(c.obj), old(c.trouble), c.obj, c.trouble)
    ensures r.NoFinalizer? <==> !old(c.obj).finalizer
    ensures r.NoFinalizer? ==> c.obj == old(c.obj) && c.trace == old(c.trace)
    ensures r.Requeue? ==> c.obj.finalizer && c.obj.ds.Keys == old(c.obj).ds.Keys
    ensures r.Done? ==> !c.obj.finalizer
    ensures old(c.obj).finalizer && !c.obj.finalizer ==> forall w :: w in c.obj.workloads ==> w !in c.obj.ds
    ensures old(c.obj).finalizer ==>
              MeasureOf(c.obj.ds, old(c.obj).workloads, c.obj.finalizer).AtMost(MeasureOf(old(c.obj).ds, old(c.obj).workloads, true))
    ensures r.Error? ==> c.trouble.faults < old(c.trouble).faults || c.trouble.edits < old(c.trouble).edits
    ensures r.Done? || r.Requeue? ==>
              Progress(old(c.obj).ds, c.obj.ds, old(c.obj).workloads, r.Done?) || c.trouble.faults < old(c.trouble).faults
  {
    ghost var before, trace0 := c.Now(), c.trace;
    if c.obj.finalizer {
      r := RunPass(c);
    } else {
      r := NoFinalizer;
    }
    Tells(c, before, trace0);
    RunIsSafe(c.start, c.trace);
  }

  method RunPass(c: Cluster) returns (r: PassResult)
    requires c.Valid() && c.control.Idle? && c.obj.finalizer
    modifies c
    ensures c.Valid() && c.control.Idle? && old(c.trace) <= c.trace && !r.NoFinalizer?
    ensures Turned(old(c.obj), old(c.trouble), c.obj, c.trouble)
    ensures r.Requeue? ==> c.obj.finalizer && c.obj.ds.Keys == old(c.obj).ds.Keys
    ensures r.Done? ==> !c.obj.finalizer
    ensures !c.obj.finalizer ==> forall w :: w in c.obj.workloads ==> w !in c.obj.ds
    ensures MeasureOf(c.obj.ds, old(c.obj).workloads, c.obj.finalizer).AtMost(MeasureOf(old(c.obj).ds, old(c.obj).workloads, true))
    ensures r.Error? ==> c.trouble.faults < old(c.trouble).faults || c.trouble.edits < old(c.trouble).edits
    ensures r.Done? || r.Requeue? ==>
              Progress(old(c.obj).ds, c.obj.ds, old(c.obj).workloads, r.Done?) || c.trouble.faults < old(c.trouble).faults
  {
    ghost var ds0, declared, faults0 := c.obj.ds, c.obj.workloads, c.trouble.faults;
    var ws, read := c.ReadPlugin();
    var ok, draining;
    ghost var q;
    ok, draining, q := ScaleAll(c, ws, read, declared);
    if !ok { return Error; }
    if draining {
      if c.trouble.faults == faults0 {
        DrainingIsProgress(ds0, c.obj.ds, declared);
      }
      return Requeue;
    }
    ok := DeleteAll(c, ws, q, declared);
    if !ok { return Error; }
    ghost var ds1 := c.obj.ds;
    ok := c.RemoveFinalizer(read);
    MovesKeepMeasure(ds1, c.obj.ds, declared);
    r := if ok then Done else Error;
  }

  /** A pass that requeues because of pods got something done, or had asked all of them to go before. */
  lemma DrainingIsProgress(ds: Deployments, ds': Deployments, ws: seq<string>)
    requires Down(ds, ds', ws) && forall w :: w in ws && w in ds' ==> ds'[w].Scaled()
    requires exists w :: w in ws && w in ds && (ds[w].Scaled() ==> ds[w].live > 0)
    ensures Progress(ds, ds', ws, false)
  {
    var w :| w in ws && w in ds && (ds[w].Scaled() ==> ds[w].live > 0);
    UnscaledZero(ds, ws);
    UnscaledZero(ds', ws);
    if ds[w].Scaled() {
      DrainingCounts(ds, ws, w);
    }
  }

  // ---------- termination ----------

  lemma AtMostOn(a: Measure, b: Measure, c: Measure)
    requires a.AtMost(b) && b.AtMost(c)
    ensures a.AtMost(c) && (a.Less(b) || b.Less(c) ==> a.Less(c))
  {
  }

  /**
   Controller moves and passes that do not get through: `path` is where they lead, and all that is asked of
   them is that the measure does not rise.
   */
  ghost predicate Spoilt(path: seq<Deployments>, ws: seq<string>) {
    |path| > 0 && forall i :: 0 <= i < |path| - 1 ==> MeasureOf(path[i + 1], ws, true).AtMost(MeasureOf(path[i], ws, true))
  }

  lemma {:induction false} SpoiltKeeps(path: seq<Deployments>, ws: seq<string>)
    requires Spoilt(path, ws)
    ensures MeasureOf(path[|path| - 1], ws, true).AtMost(MeasureOf(path[0], ws, true))
    decreases |path|
  {
    if |path| > 1 {
      var init := path[..|path| - 1];
      SpoiltKeeps(init, ws);
      var n := |path| - 2;
      assert MeasureOf(path[n + 1], ws, true).AtMost(MeasureOf(path[n], ws, true));
      AtMostOn(MeasureOf(path[n + 1], ws, true), MeasureOf(path[n], ws, true), MeasureOf(path[0], ws, true));
    }
  }

  /** A round: any number of spoilt passes and moves, then a fair spell and a pass that gets through. */
  ghost predicate Round(path: seq<Deployments>, mid: Deployments, ds': Deployments, ws: seq<string>, released: bool) {
    Spoilt(path, ws) && FairMoves(path[|path| - 1], mid, ws) && Progress(mid, ds', ws, released)
  }

  lemma RoundLowers(path: seq<Deployments>, mid: Deployments, ds': Deployments, ws: seq<string>, released: bool)
    requires Round(path, mid, ds', ws, released)
    ensures MeasureOf(ds', ws, !released).Less(MeasureOf(path[0], ws, true))
  {
    var last := path[|path| - 1];
    SpoiltKeeps(path, ws);
    MovesKeepMeasure(last, mid, ws);
    assert MeasureOf(ds', ws, !released).Less(MeasureOf(last, ws, true));
    AtMostOn(MeasureOf(ds', ws, !released), MeasureOf(last, ws, true), MeasureOf(path[0], ws, true));
  }

  /** What a turn of the requeue loop does to the measure, spoiled or not. */
  lemma TurnFalls(ds1: Deployments, ds2: Deployments, ds3: Deployments, ws: seq<string>, released: bool, unspoiled: bool)
    requires ControllerMoves(ds1, ds2) && MeasureOf(ds3, ws, !released).AtMost(MeasureOf(ds2, ws, true))
    requires unspoiled ==> FairMoves(ds1, ds2, ws) && Progress(ds2, ds3, ws, released)
    ensures MeasureOf(ds3, ws, !released).AtMost(MeasureOf(ds1, ws, true))
    ensures unspoiled || released ==> MeasureOf(ds3, ws, !released).Less(MeasureOf(ds1, ws, true))
  {
    MovesKeepMeasure(ds1, ds2, ws);
    if unspoiled {
      RoundLowers([ds1], ds2, ds3, ws, released);
    }
  }

  /** One turn of the requeue loop: time passes, then a pass. */
  method Turn(c: Cluster)
    requires c.Valid() && c.control.Idle? && c.obj.finalizer
    modifies c
    ensures c.Valid() && c.control.Idle? && old(c.trace) <= c.trace
    ensures Turned(old(c.obj), old(c.trouble), c.obj, c.trouble)
    ensures !c.obj.finalizer ==> forall w :: w in c.obj.workloads ==> w !in c.obj.ds
    ensures c.trouble.edits == old(c.trouble).edits ==>
              && c.obj.workloads == old(c.obj).workloads
              && var m, m' := MeasureOf(old(c.obj).ds, c.obj.workloads, true), MeasureOf(c.obj.ds, c.obj.workloads, c.obj.finalizer);
              && m'.AtMost(m) && (c.trouble.faults == old(c.trouble).faults || !c.obj.finalizer ==> m'.Less(m))
  {
    ghost var workloads, trouble1, ds1 := c.obj.workloads, c.trouble, c.obj.ds;
    c.Spell(c.obj.workloads);
    ghost var ds2 := c.obj.ds;
    var r := Finalize(c);
    if c.trouble.edits == trouble1.edits {
      TurnFalls(ds1, ds2, c.obj.ds, workloads, !c.obj.finalizer, c.trouble.faults == trouble1.faults);
    }
  }

  /**
   The requeue loop. However often others spoil requests, reads and spells between two steps forward, and
   however often they edit the plugin, as long as either stays finite the finalizer goes, and then nothing
   that the plugin declares is left. All of it is one run of the protocol, so every delete of every pass met
   what `DeletionMeets` says, and every Deployment that is gone was deleted by one of them.
   */
  method TearDown(c: Cluster)
    requires c.Valid() && c.control.Idle? && c.obj.finalizer
    modifies c
    ensures !c.obj.finalizer && forall w :: w in c.obj.workloads ==> w !in c.obj.ds
    ensures c.Valid() && old(c.trace) <= c.trace
    ensures Safe(c.start, c.trace) && Told(c, old(c.obj).ds, |old(c.trace)|)
  {
    ghost var before, trace0 := c.Now(), c.trace;
    while c.obj.finalizer
      invariant c.Valid() && c.control.Idle? && trace0 <= c.trace
      invariant !c.obj.finalizer ==> forall w :: w in c.obj.workloads ==> w !in c.obj.ds
      decreases c.trouble.edits, Unscaled(c.obj.ds, c.obj.workloads), Draining(c.obj.ds, c.obj.workloads),
        Remaining(c.obj.ds, c.obj.workloads), if c.obj.finalizer then 1 else 0, c.trouble.faults
    {
      var edits, m := c.trouble.edits, MeasureOf(c.obj.ds, c.obj.workloads, true);
      Turn(c);
      if c.obj.finalizer && (c.trouble.edits < edits || MeasureOf(c.obj.ds, c.obj.workloads, true).Less(m)) {
        c.Renew();
      }
    }
    Tells(c, before, trace0);
    RunIsSafe(c.start, c.trace);
  }

  /** What a round makes of the Deployments, decided anew each time. */
  datatype RoundResult = RoundResult(path: seq<Deployments>, mid: Deployments, ds: Deployments, released: bool)

  /** On values: whatever the rounds do, after finitely many the finalizer is gone. */
  lemma {:induction false} EventuallyReleased(ds: Deployments, ws: seq<string>, next: (nat, Deployments) -> RoundResult, t: nat)
    returns (rounds: nat)
    requires forall k, d :: var r := next(k, d); Round(r.path, r.mid, r.ds, ws, r.released) && r.path[0] == d
    ensures After(ds, next, t, rounds).1
    decreases Unscaled(ds, ws), Draining(ds, ws), Remaining(ds, ws)
  {
    var r := next(t, ds);
    RoundLowers(r.path, r.mid, r.ds, ws, r.released);
    if r.released {
      rounds := 1;
    } else {
      var more := EventuallyReleased(r.ds, ws, next, t + 1);
      rounds := more + 1;
    }
  }

  /** The Deployments after so many rounds, and whether the finalizer went in one of them. */
  ghost function After(ds: Deployments, next: (nat, Deployments) -> RoundResult, t: nat, rounds: nat): (Deployments, bool)
    decreases rounds
  {
    if rounds == 0 then (ds, false)
    else
      var r := next(t, ds);
      if r.released then (r.ds, true) else After(r.ds, next, t + 1, rounds - 1)
  }
}
