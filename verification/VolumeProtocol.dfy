/**
 The provisioned NFS volume: the operator's pass, request by request, among a binder that stamps
 claims and moves phases, spec edits, and a deleted volume that lingers before it vanishes.
 */
module VolumeProtocol {
  import opened Common

  datatype Nfs = Nfs(server: string, path: string, readOnly: bool)

  datatype ClaimRef = ClaimRef(namespace: string, name: string, uid: string)

  datatype Phase = Available | Pending | Bound | Released | Failed

  datatype Volume = Volume(source: Option<Nfs>, storageClass: string, mountOptions: seq<string>,
                           claimRef: Option<ClaimRef>, phase: Phase, terminating: bool, revision: nat)

  /** What the media folder asks for. */
  datatype Want = Want(nfs: Nfs, storageClass: string, mountOptions: seq<string>)

  datatype Drift = NoDrift | NotNfs | ServerDrift | PathDrift | ReadOnlyDrift | StorageClassDrift

  /** The immutable field on which the volume no longer matches, in the order the operator looks. */
  function ImmutableDrift(v: Volume, want: Want): Drift {
    if v.source.None? then NotNfs
    else if v.source.value.server != want.nfs.server then ServerDrift
    else if v.source.value.path != want.nfs.path then PathDrift
    else if v.source.value.readOnly != want.nfs.readOnly then ReadOnlyDrift
    else if v.storageClass != want.storageClass then StorageClassDrift
    else NoDrift
  }

  lemma DriftMeaning(v: Volume, want: Want)
    ensures ImmutableDrift(v, want).NoDrift? <==> v.source == Some(want.nfs) && v.storageClass == want.storageClass
    ensures
      match ImmutableDrift(v, want)
      case NoDrift => true
      case NotNfs => v.source.None?
      case ServerDrift => v.source.Some? && v.source.value.server != want.nfs.server
      case PathDrift => v.source.Some? && v.source.value.path != want.nfs.path
      case ReadOnlyDrift => v.source.Some? && v.source.value.readOnly != want.nfs.readOnly
      case StorageClassDrift => v.storageClass != want.storageClass
  {
    if ImmutableDrift(v, want).NoDrift? {
      var n := v.source.value;
      assert n == Nfs(n.server, n.path, n.readOnly);
    }
  }

  /** Deleting the volume would strand a bound claim. */
  predicate Serving(v: Volume) {
    v.claimRef.Some? && v.claimRef.value.uid != "" && (v.phase.Bound? || v.phase.Pending?)
  }

  /** Where the operator's pass stands; `want` is the spec it read, `first` and `seen` what its reads answered. */
  datatype Control =
    | Idle
    | Started(want: Want)
    | Deleting(want: Want, seen: Volume)                              // read a drifted volume that served no claim
    | Ensuring(want: Want, first: Option<Volume>)                     // read nothing, or nothing to replace
    | Creating(want: Want, first: Option<Volume>)
    | Updating(want: Want, first: Option<Volume>, seen: Volume)

  /**
   `namespace`/`claim` name the claim the volume is for; `clock` hands out resource versions. `past` holds
   everything a read may answer: the volume as it is, and as the cache may still have it.
   */
  datatype State = State(want: Want, volume: Option<Volume>, past: set<Option<Volume>>, control: Control,
                         namespace: string, claim: string, clock: nat)
  {
    predicate ForUs(ref: Option<ClaimRef>) {
      ref.Some? && ref.value.namespace == namespace && ref.value.name == claim
    }

    function PreBound(): Option<ClaimRef> {
      Some(ClaimRef(namespace, claim, ""))
    }

    /** The volume becomes `v`; every change has a resource version of its own. */
    function Becomes(v: Option<Volume>): State {
      this.(volume := v, past := past + {v}, clock := clock + 1)
    }

    predicate Serves() {
      volume.Some? && Serving(volume.value)
    }
  }

  datatype Step =
    | EditSpec(want: Want)
    | Binder(claimRef: Option<ClaimRef>, phase: Phase)   // anything the binder may do to a volume
    | Vanish                                             // a terminating volume is finally gone
    | Begin
    | Read(answer: Option<Volume>)
    | Delete
    | ReadAgain(answer: Option<Volume>)
    | Create
    | Update
    | Fail                                               // a request errs; the pass is over
  {
    /** The next request is the operator's. */
    predicate ByOperator() {
      !EditSpec? && !Binder? && !Vanish?
    }
  }

  predicate Enabled(s: State, step: Step) {
    match step
    case EditSpec(_) => true
    case Binder(_, _) => s.volume.Some?
    case Vanish => s.volume.Some? && s.volume.value.terminating
    case Begin => s.control.Idle?
    case Read(answer) => s.control.Started? && answer in s.past
    case Delete => s.control.Deleting?
    case ReadAgain(answer) => s.control.Ensuring? && answer in s.past
    case Create => s.control.Creating?
    case Update => s.control.Updating?
    case Fail => !s.control.Idle?
  }

  /** The fields the operator writes, on an existing volume or on a new one. */
  function Written(s: State, v: Volume, want: Want): Volume {
    v.(source := Some(want.nfs), storageClass := want.storageClass, mountOptions := want.mountOptions,
       claimRef := if s.ForUs(v.claimRef) then v.claimRef else s.PreBound(), revision := s.clock)
  }

  const BLANK := Volume(None, "", [], None, Available, false, 0)

  /** The step asks to change what cannot change: the source or the storage class of the existing volume. */
  predicate AsksForChange(s: State, step: Step)
    requires Enabled(s, step)
  {
    && step.Update? && s.volume.Some? && s.volume.value.revision == s.control.seen.revision
    && !ImmutableDrift(s.volume.value, s.control.want).NoDrift?
  }

  function Take(s: State, step: Step): State
    requires Enabled(s, step)
  {
    match step
    case EditSpec(want) => s.(want := want)
    case Binder(ref, phase) => s.Becomes(Some(s.volume.value.(claimRef := ref, phase := phase, revision := s.clock)))
    case Vanish => s.Becomes(None)
    case Begin => s.(control := Started(s.want))
    case Read(answer) =>
      var want := s.control.want;
      if answer.None? || ImmutableDrift(answer.value, want).NoDrift? then s.(control := Ensuring(want, answer))
      else if Serving(answer.value) then s.(control := Idle)
      else s.(control := Deleting(want, answer.value))
    case Delete =>
      if s.volume.None? then s.(control := Idle)
      else s.(control := Idle).Becomes(Some(s.volume.value.(terminating := true, revision := s.clock)))
    case ReadAgain(answer) =>
      var c := s.control;
      s.(control := if answer.None? then Creating(c.want, c.first) else Updating(c.want, c.first, answer.value))
    case Create =>
      if s.volume.Some? then s.(control := Idle)
      else s.(control := Idle).Becomes(Some(Written(s, BLANK, s.control.want)))
    case Update =>
      // a conflict, or a change the API server refuses, leaves the volume as it is
      if s.volume.None? || s.volume.value.revision != s.control.seen.revision || AsksForChange(s, step) then s.(control := Idle)
      else s.(control := Idle).Becomes(Some(Written(s, s.volume.value, s.control.want)))
    case Fail => s.(control := Idle)
  }

  predicate Legal(s: State, steps: seq<Step>)
    decreases |steps|
  {
    steps != [] ==> Enabled(s, steps[0]) && Legal(Take(s, steps[0]), steps[1..])
  }

  function Exec(s: State, steps: seq<Step>): State
    requires Legal(s, steps)
    decreases |steps|
  {
    if steps == [] then s else Exec(Take(s, steps[0]), steps[1..])
  }

  /** What reads answer: the volume is among it, and a resource version stands for one state of it. */
  ghost predicate PastInv(s: State) {
    && s.volume in s.past
    && (forall v :: Some(v) in s.past ==> v.revision < s.clock)
    && (forall v, w :: Some(v) in s.past && Some(w) in s.past && v.revision == w.revision ==> v == w)
  }

  /** What every state of every run satisfies. */
  ghost predicate Inv(s: State) {
    && PastInv(s)
    && match s.control
       case Idle => true
       case Started(_) => true
       case Deleting(want, seen) => Some(seen) in s.past && !Serving(seen) && !ImmutableDrift(seen, want).NoDrift?
       case Ensuring(want, first) => first in s.past && (first.Some? ==> ImmutableDrift(first.value, want).NoDrift?)
       case Creating(want, first) => first in s.past && (first.Some? ==> ImmutableDrift(first.value, want).NoDrift?)
       case Updating(want, first, seen) =>
         Some(seen) in s.past && first in s.past && (first.Some? ==> ImmutableDrift(first.value, want).NoDrift?)
  }

  lemma BecomesKeeps(s: State, v: Option<Volume>)
    requires PastInv(s) && (v.Some? ==> v.value.revision == s.clock)
    ensures PastInv(s.Becomes(v))
  {
  }

  lemma StepKeeps(s: State, step: Step)
    requires Inv(s) && Enabled(s, step)
    ensures Inv(Take(s, step))
  {
    var s' := Take(s, step);
    if s'.clock != s.clock {
      BecomesKeeps(s, s'.volume);
    }
  }

  lemma {:induction false} RunKeeps(s: State, steps: seq<Step>)
    requires Inv(s) && Legal(s, steps)
    ensures Inv(Exec(s, steps))
    decreases |steps|
  {
    if steps != [] {
      StepKeeps(s, steps[0]);
      RunKeeps(Take(s, steps[0]), steps[1..]);
    }
  }

  /** No pass has begun; there may be any volume, from an earlier spec or foreign. */
  ghost predicate Initial(s: State) {
    s.control.Idle? && PastInv(s)
  }

  /** The volume has the source and the storage class of `v`. */
  predicate Alike(v: Volume, w: Volume) {
    v.source == w.source && v.storageClass == w.storageClass
  }

  /**
   At any point of any run, however stale the reads, the operator's next request
   - leaves the existing volume there, with its NFS source and storage class,
   - leaves a claim reference to our claim exactly as the binder left it, UID included,
   - asks for a change of source or class (which the server refuses) if and only if it is an update that meets
     the very version its pass read last and that version drifts from the spec the pass works for; then the
     pass's first read answered nothing, or a volume unlike it.
   */
  lemma RequestSafety(s: State, steps: seq<Step>, step: Step)
    requires Initial(s) && Legal(s, steps) && Enabled(Exec(s, steps), step) && step.ByOperator()
    ensures
      var before := Exec(s, steps);
      var after := Take(before, step);
      && (before.volume.Some? ==>
            && after.volume.Some? && Alike(after.volume.value, before.volume.value)
            && (before.ForUs(before.volume.value.claimRef) ==> after.volume.value.claimRef == before.volume.value.claimRef))
      && (AsksForChange(before, step) <==>
            && step.Update? && before.volume == Some(before.control.seen)
            && !ImmutableDrift(before.control.seen, before.control.want).NoDrift?)
      && (AsksForChange(before, step) ==>
            before.control.first.None? || !Alike(before.control.first.value, before.control.seen))
  {
    RunKeeps(s, steps);
    var before := Exec(s, steps);
    if step.Update? {
      var c := before.control;
      DriftMeaning(c.seen, c.want);
      if c.first.Some? {
        DriftMeaning(c.first.value, c.want);
      }
      if before.volume.Some? && before.volume.value.revision == c.seen.revision {
        assert before.volume.value == c.seen;
      }
    }
  }

  /** The fields of `v` that the operator writes are those of `want`, and it is reserved for our claim. */
  ghost predicate Made(s: State, v: Volume, want: Want) {
    && v.source == Some(want.nfs) && v.storageClass == want.storageClass && v.mountOptions == want.mountOptions
    && v.claimRef.Some? && v.claimRef.value.namespace == s.namespace && v.claimRef.value.name == s.claim
  }

  /**
   At any point of any run, a create or update that takes effect leaves the volume with the source, class and
   mount options its pass works for and reserved for our claim; an update keeps phase and termination, and a
   reference to our claim with its UID; a create makes a volume with no UID yet.
   */
  lemma WritesWhatIsWanted(s: State, steps: seq<Step>, step: Step)
    requires Initial(s) && Legal(s, steps) && Enabled(Exec(s, steps), step) && (step.Create? || step.Update?)
    ensures
      var before := Exec(s, steps);
      var after := Take(before, step);
      after.volume != before.volume ==>
        && after.volume.Some? && Made(before, after.volume.value, before.control.want)
        && match before.volume
           case None => step.Create? && after.volume.value.claimRef.value.uid == "" && !after.volume.value.terminating
           case Some(v) =>
             && step.Update? && after.volume.value.phase == v.phase && after.volume.value.terminating == v.terminating
             && (before.ForUs(v.claimRef) ==> after.volume.value.claimRef == v.claimRef)
             && (!before.ForUs(v.claimRef) ==> after.volume.value.claimRef.value.uid == "")
  {
  }

  /** Whatever is read and asked, the volume keeps its source and its class until it vanishes. */
  lemma {:induction false} KeptUntilVanish(s: State, steps: seq<Step>)
    requires Inv(s) && s.volume.Some? && Legal(s, steps) && Vanish !in steps
    ensures Exec(s, steps).volume.Some? && Alike(Exec(s, steps).volume.value, s.volume.value)
    decreases |steps|
  {
    if steps != [] {
      StepKeeps(s, steps[0]);
      assert steps[0] in steps;
      if steps[0].Update? {
        DriftMeaning(s.volume.value, s.control.want);
      }
      KeptUntilVanish(Take(s, steps[0]), steps[1..]);
    }
  }

  // ---------- fresh first reads ----------

  /** The first read of every pass answers with the volume as it is; the second may be stale. */
  predicate FirstReadsFresh(s: State, steps: seq<Step>)
    requires Legal(s, steps)
    decreases |steps|
  {
    steps != [] ==>
      (steps[0].Read? ==> steps[0].answer == s.volume) && FirstReadsFresh(Take(s, steps[0]), steps[1..])
  }

  /** After a fresh first read, a volume still there is like the one read. */
  ghost predicate FreshInv(s: State) {
    match s.control
    case Ensuring(want, first) => s.volume.Some? ==> first.Some? && Alike(s.volume.value, first.value)
    case Creating(want, first) => s.volume.Some? ==> first.Some? && Alike(s.volume.value, first.value)
    case Updating(want, first, seen) => s.volume.Some? ==> first.Some? && Alike(s.volume.value, first.value)
    case _ => true
  }

  lemma {:induction false} FreshKept(s: State, steps: seq<Step>)
    requires Inv(s) && FreshInv(s) && Legal(s, steps) && FirstReadsFresh(s, steps)
    ensures Inv(Exec(s, steps)) && FreshInv(Exec(s, steps))
    decreases |steps|
  {
    if steps != [] {
      StepKeeps(s, steps[0]);
      FreshKept(Take(s, steps[0]), steps[1..]);
    }
  }

  /** With fresh first reads no pass ever asks to change the source or class of an existing volume. */
  lemma NeverAsksWhenFresh(s: State, steps: seq<Step>, step: Step)
    requires Initial(s) && Legal(s, steps) && FirstReadsFresh(s, steps) && Enabled(Exec(s, steps), step)
    ensures !AsksForChange(Exec(s, steps), step)
  {
    FreshKept(s, steps);
    var before := Exec(s, steps);
    if step.Update? && before.volume.Some? {
      var c := before.control;
      DriftMeaning(before.volume.value, c.want);
      DriftMeaning(c.first.value, c.want);
    }
  }

  /** With a stale first read one does: the cache has not seen the volume yet, the second read finds it drifted. */
  lemma StaleReadAsks(want: Want, other: Want) returns (s: State, steps: seq<Step>)
    requires want.nfs != other.nfs
    ensures Initial(s) && Legal(s, steps) && Enabled(Exec(s, steps), Update)
    ensures AsksForChange(Exec(s, steps), Update)
  {
    var v := Some(Volume(Some(other.nfs), "", [], None, Available, false, 0));
    s := State(want, v, {None, v}, Idle, "ns", "c", 1);
    DriftMeaning(v.value, want);
    var s1 := Take(s, Begin);
    var s2 := Take(s1, Read(None));
    Unrolled(s2, ReadAgain(v), []);
    Unrolled(s1, Read(None), [ReadAgain(v)]);
    Unrolled(s, Begin, [Read(None)] + [ReadAgain(v)]);
    steps := [Begin] + ([Read(None)] + [ReadAgain(v)]);
  }

  lemma {:induction false} Unrolled(s: State, step: Step, rest: seq<Step>)
    requires Enabled(s, step) && Legal(Take(s, step), rest)
    ensures Legal(s, [step] + rest) && Exec(s, [step] + rest) == Exec(Take(s, step), rest)
  {
    assert ([step] + rest)[1..] == rest;
  }

  // ---------- what the unguarded delete meets ----------

  /** Steps of others only. */
  predicate Between(steps: seq<Step>) {
    forall i :: 0 <= i < |steps| ==> !steps[i].ByOperator()
  }

  /** The last word on whether the volume serves a claim, if there was any: a stamp, or its disappearance. */
  function LastWord(steps: seq<Step>): Option<bool> {
    if steps == [] then None
    else
      match steps[|steps| - 1]
      case Binder(ref, phase) => Some(ref.Some? && ref.value.uid != "" && (phase.Bound? || phase.Pending?))
      case Vanish => Some(false)
      case _ => LastWord(steps[..|steps| - 1])
  }

  lemma {:induction false} LastWordOfFirst(step: Step, rest: seq<Step>)
    ensures LastWord([step] + rest) == if LastWord(rest).Some? then LastWord(rest) else LastWord([step])
  {
    var steps := [step] + rest;
    if rest == [] {
      assert steps == [step];
    } else {
      var n := |rest| - 1;
      assert steps[..n + 1] == [step] + rest[..n];
      LastWordOfFirst(step, rest[..n]);
    }
  }

  /** Without the operator, the volume serves a claim exactly when the last word said so, or it did and nobody spoke. */
  lemma {:induction false} ServesIff(s: State, steps: seq<Step>)
    requires Legal(s, steps) && Between(steps)
    ensures Exec(s, steps).control == s.control
    ensures Exec(s, steps).Serves() <==> (if LastWord(steps).Some? then LastWord(steps).value else s.Serves())
    decreases |steps|
  {
    if steps != [] {
      assert steps == [steps[0]] + steps[1..];
      LastWordOfFirst(steps[0], steps[1..]);
      assert LastWord([steps[0]]) == match steps[0]
        case Binder(ref, phase) => Some(ref.Some? && ref.value.uid != "" && (phase.Bound? || phase.Pending?))
        case Vanish => Some(false)
        case _ => LastWord([steps[0]][..0]);
      ServesIff(Take(s, steps[0]), steps[1..]);
    }
  }

  /** Where the last first read of a run stands. */
  function LastRead(steps: seq<Step>): int {
    if steps == [] then -1
    else if steps[|steps| - 1].Read? then |steps| - 1
    else LastRead(steps[..|steps| - 1])
  }

  lemma {:induction false} LastReadMeaning(steps: seq<Step>)
    ensures -1 <= LastRead(steps) < |steps|
    ensures LastRead(steps) >= 0 ==> steps[LastRead(steps)].Read?
    ensures forall i :: LastRead(steps) < i < |steps| ==> !steps[i].Read?
  {
    if steps != [] && !steps[|steps| - 1].Read? {
      LastReadMeaning(steps[..|steps| - 1]);
    }
  }

  lemma {:induction false} RunSplits(s: State, steps: seq<Step>, i: nat)
    requires Legal(s, steps) && i <= |steps|
    ensures Legal(s, steps[..i]) && Legal(Exec(s, steps[..i]), steps[i..])
    ensures Exec(Exec(s, steps[..i]), steps[i..]) == Exec(s, steps)
    decreases i
  {
    if i > 0 {
      assert steps[..i][1..] == steps[1..][..i - 1] && steps[1..][i - 1..] == steps[i..];
      RunSplits(Take(s, steps[0]), steps[1..], i - 1);
    }
  }

  /** A pass about to delete has made no request since its read. */
  lemma {:induction false} QuietSinceRead(s: State, steps: seq<Step>)
    requires Legal(s, steps) && Exec(s, steps).control.Deleting? && (s.control.Deleting? ==> exists i :: 0 <= i < |steps| && steps[i].ByOperator())
    ensures 0 <= LastRead(steps) < |steps| && Between(steps[LastRead(steps) + 1..])
    decreases |steps|
  {
    var n := |steps| - 1;
    assert steps != [];
    RunSplits(s, steps, n);
    var init, last := steps[..n], steps[n];
    var mid := Exec(s, init);
    assert steps[n..] == [last];
    assert Exec(s, steps) == Take(mid, last);
    if !last.Read? {
      assert !last.ByOperator() && mid.control.Deleting?;
      QuietSinceRead(s, init);
      var k := LastRead(init);
      LastReadMeaning(init);
      assert steps[k + 1..] == init[k + 1..] + [last];
    } else {
      assert steps[n + 1..] == [];
    }
  }

  /**
   The delete carries no resource version. At any point of any run it meets a volume that serves a claim if and
   only if, since the read that led to it, the binder's last stamp says so and the volume has not vanished; or
   nobody stamped it since, and it served a claim already while the read answered an older version.
   */
  lemma DeleteMeetsServingIff(s: State, steps: seq<Step>)
    requires Initial(s) && Legal(s, steps) && Enabled(Exec(s, steps), Delete)
    ensures
      var k := LastRead(steps);
      && 0 <= k < |steps| && steps[k].Read? && Legal(s, steps[..k])
      && var atRead, since := Exec(s, steps[..k]), LastWord(steps[k + 1..]);
      && (Exec(s, steps).Serves() <==> if since.Some? then since.value else atRead.Serves())
      && (steps[k].answer == atRead.volume ==> (Exec(s, steps).Serves() <==> since == Some(true)))
  {
    QuietSinceRead(s, steps);
    LastReadMeaning(steps);
    var k := LastRead(steps);
    RunSplits(s, steps, k);
    RunSplits(s, steps, k + 1);
    var atRead := Exec(s, steps[..k]);
    var after := Exec(s, steps[..k + 1]);
    RunSplits(s, steps[..k + 1], k);
    assert steps[..k + 1][..k] == steps[..k] && steps[..k + 1][k..] == [steps[k]];
    assert after == Take(atRead, steps[k]);
    ServesIff(after, steps[k + 1..]);
    assert after.Serves() == atRead.Serves();
    assert after.control.Deleting?;
  }

  /** So it can: the binder stamps a drifted volume between the pass's read and its delete. */
  lemma DeleteRace(want: Want, other: Want, uid: string) returns (s: State, steps: seq<Step>)
    requires want.nfs != other.nfs && uid != ""
    ensures Initial(s) && Legal(s, steps) && Enabled(Exec(s, steps), Delete)
    ensures FirstReadsFresh(s, steps)
    ensures
      var before := Exec(s, steps);
      before.Serves() && Take(before, Delete).volume.value.terminating
  {
    var v := Some(Volume(Some(other.nfs), "", [], None, Available, false, 0));
    s := State(want, v, {v}, Idle, "ns", "c", 1);
    var stamp := Binder(Some(ClaimRef("ns", "c", uid)), Bound);
    DriftMeaning(v.value, want);
    var s1 := Take(s, Begin);
    var s2 := Take(s1, Read(v));
    Unrolled(s2, stamp, []);
    Unrolled(s1, Read(v), [stamp]);
    Unrolled(s, Begin, [Read(v)] + [stamp]);
    steps := [Begin] + ([Read(v)] + [stamp]);
    assert steps[1..] == [Read(v)] + [stamp] && ([Read(v)] + [stamp])[1..] == [stamp];
    assert FirstReadsFresh(s2, [stamp]) && FirstReadsFresh(s1, [Read(v)] + [stamp]);
  }

  // ---------- replacing a drifted volume ----------

  /** The volume is what the folder asks for, and is not going away. */
  ghost predicate Matches(s: State) {
    s.volume.Some? && !s.volume.value.terminating
    && s.volume.value.source == Some(s.want.nfs) && s.volume.value.storageClass == s.want.storageClass
    && s.volume.value.mountOptions == s.want.mountOptions
  }

  /** Requests and binder activity under a spec that stays as it is; no request errs, and reads are up to date. */
  predicate Undisturbed(s: State, steps: seq<Step>)
    requires Legal(s, steps)
    decreases |steps|
  {
    steps != [] ==>
      && !steps[0].EditSpec? && !steps[0].Fail?
      && (steps[0].Read? || steps[0].ReadAgain? ==> steps[0].answer == s.volume)
      && Undisturbed(Take(s, steps[0]), steps[1..])
  }

  /** From the disappearance of the old volume on, with every pass working for the spec as it is. */
  ghost predicate Rebuilding(s: State) {
    && (s.volume.Some? ==> Matches(s))
    && (!s.control.Idle? ==> s.control.want == s.want)
    && (s.control.Deleting? || s.control.Creating? ==> s.volume.None?)
  }

  /** The volume is there, or the pass under way is going to build it. */
  ghost predicate Building(s: State) {
    Matches(s) || s.control.Started? || s.control.Ensuring? || s.control.Creating?
  }

  lemma RebuildStep(s: State, step: Step)
    requires Rebuilding(s) && Enabled(s, step) && !step.EditSpec? && !step.Fail?
    requires step.Read? || step.ReadAgain? ==> step.answer == s.volume
    ensures Rebuilding(Take(s, step))
    ensures Building(s) || step.Begin? ==> Building(Take(s, step))
  {
    if s.volume.Some? {
      DriftMeaning(s.volume.value, s.want);
    }
  }

  lemma {:induction false} Rebuilt(s: State, steps: seq<Step>)
    requires Rebuilding(s) && Legal(s, steps) && Undisturbed(s, steps)
    requires Building(s) || Begin in steps
    ensures Rebuilding(Exec(s, steps)) && Building(Exec(s, steps))
    decreases |steps|
  {
    if steps != [] {
      RebuildStep(s, steps[0]);
      assert steps == [steps[0]] + steps[1..];
      Rebuilt(Take(s, steps[0]), steps[1..]);
    }
  }

  /**
   Once the old volume is gone, the first pass to begin and complete under a stable spec leaves a volume that
   matches it, whatever the binder does meanwhile, wherever the pass stood that saw the volume go, and later
   passes keep it.
   */
  lemma FirstPassBuilds(s: State, steps: seq<Step>)
    requires s.volume.None? && (!s.control.Idle? ==> s.control.want == s.want)
    requires Legal(s, steps) && Undisturbed(s, steps) && Begin in steps
    ensures Exec(s, steps).control.Idle? ==> Matches(Exec(s, steps))
  {
    Rebuilt(s, steps);
  }

  /** What the next first read, and the next second read, answer, if there is one. */
  function FirstRead(steps: seq<Step>): Option<Option<Volume>> {
    if steps == [] then None else if steps[0].Read? then Some(steps[0].answer) else FirstRead(steps[1..])
  }

  function SecondRead(steps: seq<Step>): Option<Option<Volume>> {
    if steps == [] then None else if steps[0].ReadAgain? then Some(steps[0].answer) else SecondRead(steps[1..])
  }

  /** Nothing, or nothing to replace. */
  predicate Clear(want: Want, answer: Option<Volume>) {
    answer.Some? ==> ImmutableDrift(answer.value, want).NoDrift?
  }

  /** Whether the rest of a pass over a vanished volume builds it, by where it stands and what it reads. */
  predicate WillBuild(c: Control, steps: seq<Step>) {
    match c
    case Started(want) =>
      FirstRead(steps).Some? && Clear(want, FirstRead(steps).value) && SecondRead(steps) == Some(None)
    case Ensuring(_, _) => SecondRead(steps) == Some(None)
    case Creating(_, _) => true
    case _ => false
  }

  /** After the pass nothing creates or removes a volume that is not terminating. */
  lemma {:induction false} SettledStays(s: State, steps: seq<Step>)
    requires s.control.Idle? && Legal(s, steps) && Begin !in steps && (s.volume.Some? ==> !s.volume.value.terminating)
    ensures Exec(s, steps).volume.Some? <==> s.volume.Some?
    ensures s.volume.Some? ==>
      Alike(Exec(s, steps).volume.value, s.volume.value) && Exec(s, steps).volume.value.mountOptions == s.volume.value.mountOptions
    decreases |steps|
  {
    if steps != [] {
      assert steps == [steps[0]] + steps[1..] && steps[0] in steps;
      SettledStays(Take(s, steps[0]), steps[1..]);
    }
  }

  /**
   However stale its reads and whatever others do meanwhile, a pass over a vanished volume that comes to its
   end builds one if and only if its first read answers nothing or a volume without drift and its second
   answers nothing; and what it builds is what it works for.
   */
  lemma {:induction false} BuildsIff(s: State, steps: seq<Step>)
    requires s.volume.None? && !s.control.Idle? && Legal(s, steps) && Begin !in steps && Fail !in steps
    requires Exec(s, steps).control.Idle?
    ensures Exec(s, steps).volume.Some? <==> WillBuild(s.control, steps)
    ensures
      var v, want := Exec(s, steps).volume, s.control.want;
      v.Some? ==> v.value.source == Some(want.nfs) && v.value.storageClass == want.storageClass && v.value.mountOptions == want.mountOptions
    decreases |steps|
  {
    var step, rest := steps[0], steps[1..];
    assert steps == [step] + rest && step in steps;
    var s' := Take(s, step);
    if s'.control.Idle? {
      SettledStays(s', rest);
    } else {
      BuildsIff(s', rest);
    }
  }

  /** The volume drifts from the spec, or an earlier pass, under this spec, is about to look at it. */
  ghost predicate Replacing(s: State, source: Option<Nfs>, storageClass: string) {
    && s.volume.Some? && s.volume.value.source == source && s.volume.value.storageClass == storageClass
    && !ImmutableDrift(s.volume.value, s.want).NoDrift?
    && match s.control
       case Idle => true
       case Started(want) => want == s.want
       case Deleting(want, _) => want == s.want
       case _ => false
  }

  /**
   While the drifted volume exists, passes under a stable spec neither rebuild nor alter it: a pass that
   runs to its end has either left it alone because it serves a claim, or asked for its deletion.
   */
  lemma {:induction false} NoRebuildBeforeVanish(s: State, steps: seq<Step>, source: Option<Nfs>, storageClass: string)
    requires Replacing(s, source, storageClass) && Legal(s, steps) && Undisturbed(s, steps) && Vanish !in steps
    ensures Replacing(Exec(s, steps), source, storageClass)
    decreases |steps|
  {
    if steps != [] {
      assert steps == [steps[0]] + steps[1..];
      var s' := Take(s, steps[0]);
      assert steps[0] != Vanish;
      assert s'.volume.Some? && s'.volume.value.source == source && s'.volume.value.storageClass == storageClass;
      assert ImmutableDrift(s'.volume.value, s'.want) == ImmutableDrift(s.volume.value, s.want);
      NoRebuildBeforeVanish(s', steps[1..], source, storageClass);
    }
  }

  // ---------- the pass as one procedure ----------

  datatype Outcome = Ensured | StillBound(drift: Drift) | Replaced(drift: Drift)

  /** What an undisturbed pass with up-to-date reads does to the volume. */
  ghost function Pass(s: State): (State, Outcome)
    requires s.control.Idle?
  {
    var v := s.volume;
    if v.Some? && !ImmutableDrift(v.value, s.want).NoDrift? then
      var drift := ImmutableDrift(v.value, s.want);
      if Serving(v.value) then (s, StillBound(drift))
      else (s.Becomes(Some(v.value.(terminating := true, revision := s.clock))), Replaced(drift))
    else
      (s.Becomes(Some(Written(s, if v.Some? then v.value else BLANK, s.want))), Ensured)
  }

  /** The claim of the folder: the volume and class it was made for. */
  datatype Claim = Claim(volume: string, storageClass: string)

  class Cluster {
    var state: State
    var claim: Option<Claim>

    constructor (state: State, claim: Option<Claim>)
      ensures this.state == state && this.claim == claim
    {
      this.state, this.claim := state, claim;
    }

    method Get() returns (v: Option<Volume>)
      ensures v == state.volume
    {
      v := state.volume;
    }

    method DeleteVolume()
      modifies this`state
      ensures state == if old(state).volume.None? then old(state)
                       else old(state).Becomes(Some(old(state).volume.value.(terminating := true, revision := old(state).clock)))
    {
      if state.volume.Some? {
        state := state.Becomes(Some(state.volume.value.(terminating := true, revision := state.clock)));
      }
    }

    /** Creates the volume if it is missing, else updates it in place. */
    method CreateOrUpdate(want: Want)
      modifies this`state
      ensures state == old(state).Becomes(Some(Written(old(state), if old(state).volume.Some? then old(state).volume.value else BLANK, want)))
    {
      var v := if state.volume.Some? then state.volume.value else BLANK;
      v := v.(mountOptions := want.mountOptions, storageClass := want.storageClass, source := Some(want.nfs), revision := state.clock);
      if v.claimRef.None? || v.claimRef.value.namespace != state.namespace || v.claimRef.value.name != state.claim {
        v := v.(claimRef := Some(ClaimRef(state.namespace, state.claim, "")));
      }
      state := state.Becomes(Some(v));
    }

    /** Creates the claim if it is missing; what a claim was made for is never rewritten. */
    method EnsureClaim(volume: string, want: Want)
      modifies this`claim
      ensures claim == if old(claim).Some? then old(claim) else Some(Claim(volume, want.storageClass))
    {
      if claim.None? {
        claim := Some(Claim(volume, want.storageClass));
      }
    }
  }

  /** One undisturbed pass, for the folder whose volume is named `name`. */
  method EnsureProvisionedNfs(cluster: Cluster, name: string) returns (outcome: Outcome)
    requires cluster.state.control.Idle?
    modifies cluster
    ensures (cluster.state, outcome) == Pass(old(cluster.state))
    ensures outcome.Ensured? ==>
              cluster.state.volume.Some? && Made(cluster.state, cluster.state.volume.value, cluster.state.want)
    ensures outcome.Ensured? <==>
              var v, want := old(cluster.state).volume, old(cluster.state).want;
              v.Some? ==> v.value.source == Some(want.nfs) && v.value.storageClass == want.storageClass
    ensures !outcome.Ensured? ==>
              var v := old(cluster.state).volume.value;
              && (outcome.StillBound? <==> v.claimRef.Some? && v.claimRef.value.uid != "" && v.phase in {Bound, Pending})
              && (outcome.StillBound? ==> cluster.state == old(cluster.state))
              && (outcome.Replaced? ==> cluster.state.volume.Some? && cluster.state.volume.value.terminating)
    ensures !outcome.Ensured? ==> old(cluster.state).volume.Some? && cluster.state.volume.Some?
                                  && cluster.state.volume.value.mountOptions == old(cluster.state).volume.value.mountOptions
                                  && cluster.state.volume.value.claimRef == old(cluster.state).volume.value.claimRef
    ensures cluster.claim == if outcome.Ensured? && old(cluster.claim).None?
                             then Some(Claim(name, cluster.state.want.storageClass)) else old(cluster.claim)
  {
    var want := cluster.state.want;
    var existing := cluster.Get();
    if existing.Some? {
      var drift := ImmutableDrift(existing.value, want);
      DriftMeaning(existing.value, want);
      if !drift.NoDrift? {
        if Serving(existing.value) {
          return StillBound(drift);
        }
        cluster.DeleteVolume();
        return Replaced(drift);
      }
    }
    if existing.Some? {
      DriftMeaning(existing.value, want);
    }
    cluster.CreateOrUpdate(want);
    cluster.EnsureClaim(name, want);
    outcome := Ensured;
  }

  /** The requests of a pass from a state nobody else disturbs. */
  ghost function Requests(s: State): seq<Step>
    requires s.control.Idle?
  {
    var read, again := Read(s.volume), ReadAgain(s.volume);
    match Pass(s).1
    case StillBound(_) => [Begin] + [read]
    case Replaced(_) => [Begin] + ([read] + [Delete])
    case Ensured => [Begin] + ([read] + ([again] + [if s.volume.None? then Create else Update]))
  }

  /** The procedure is the protocol: run without interference, its requests lead to the same state. */
  lemma PassIsARun(s: State)
    requires s.control.Idle? && s.volume in s.past
    ensures Legal(s, Requests(s)) && Exec(s, Requests(s)) == Pass(s).0
  {
    var read, again := Read(s.volume), ReadAgain(s.volume);
    var s1 := Take(s, Begin);
    var s2 := Take(s1, read);
    match Pass(s).1 {
      case StillBound(_) =>
        Unrolled(s1, read, []);
        Unrolled(s, Begin, [read]);
      case Replaced(_) =>
        Unrolled(s2, Delete, []);
        Unrolled(s1, read, [Delete]);
        Unrolled(s, Begin, [read] + [Delete]);
      case Ensured =>
        var last := if s.volume.None? then Create else Update;
        Unrolled(Take(s2, again), last, []);
        Unrolled(s2, again, [last]);
        Unrolled(s1, read, [again] + [last]);
        Unrolled(s, Begin, [read] + ([again] + [last]));
    }
  }
}
