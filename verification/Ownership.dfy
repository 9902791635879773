/**
 Ownership of libraries when two controllers read possibly stale versions of the resource and each
 overwrites its whole status: the managed names may be out of date, but never contain a name that no
 spec ever asked for, so a library the operator was never told about is never touched.
 */
module Ownership {
  import opened Common
  import opened Overlay
  import opened Libraries
  import opened LibraryRuns
  import opened LibraryReconciler

  datatype Spec = Spec(desired: seq<DesiredLibrary>, prune: bool)

  /** One version of the resource: its spec and the managed names of its status. */
  datatype Version = Version(spec: Spec, managed: seq<string>)
  {
    ghost function AsIntent(): Intent {
      Intent(spec.desired, managed, spec.prune)
    }
  }

  /** A reconcile in flight. `seen` is the version it read, however old. */
  datatype Pass =
    | Instance(seen: Version)                                // instance controller, before its status write
    | Listing(seen: Version)                                 // API controller, before listing
    | Calling(seen: Version, todo: set<Call>, ids: set<string>)
    | Posting(seen: Version, ids: set<string>)
    | Writing(managed: seq<string>)                          // API controller, before its status write

  /** Every version the resource ever had (the last is current), the passes in flight, and the server. */
  datatype State = State(history: seq<Version>, passes: map<nat, Pass>, libs: Libs, rules: Rules)
  {
    ghost predicate EverDesired(n: string) {
      exists v, d :: v in history && d in v.spec.desired && d.name == n
    }
  }

  datatype Step =
    | EditSpec(spec: Spec)
    | HandEdit(libs: Libs)                                   // somebody edits the server
    | StartInstance(pid: nat, version: nat)
    | StartApi(pid: nat, version: nat)
    | ListAndDiff(pid: nat)
    | MakeCall(pid: nat, c: Call, reached: bool)             // a failed request may have been reached
    | BeginPosts(pid: nat, relist: bool)
    | PostOptions(pid: nat, id: string, options: Raw, reached: bool)
    | GiveUp(pid: nat)                                       // an error: the status is written back as read
    | Finish(pid: nat)
    | WriteStatus(pid: nat, ok: bool)                        // the last try of the retry loop
    | Crash(pid: nat)
  {
    /** Everything but the two kinds of edit is the operator's doing. */
    predicate ByOperator() {
      !EditSpec? && !HandEdit?
    }
  }

  /** The item ids a listing gives for the desired libraries. */
  ghost function DesiredIds(ds: seq<DesiredLibrary>, libs: Libs): set<string> {
    set d | d in ds && Concerns(libs, d) :: libs[d.name].itemId
  }

  ghost predicate Enabled(s: State, step: Step) {
    match step
    case EditSpec(_) => true
    case HandEdit(libs) => IdsByName(libs, s.rules)
    case StartInstance(pid, v) => pid !in s.passes && v < |s.history|
    case StartApi(pid, v) => pid !in s.passes && v < |s.history|
    case ListAndDiff(pid) => pid in s.passes && s.passes[pid].Listing?
    case MakeCall(pid, c, _) => pid in s.passes && s.passes[pid].Calling? && c in s.passes[pid].todo
    case BeginPosts(pid, _) => pid in s.passes && s.passes[pid].Calling? && s.passes[pid].todo == {}
    case PostOptions(pid, id, _, _) => pid in s.passes && s.passes[pid].Posting? && id in s.passes[pid].ids
    case GiveUp(pid) => pid in s.passes && (s.passes[pid].Listing? || s.passes[pid].Calling? || s.passes[pid].Posting?)
    case Finish(pid) => pid in s.passes && s.passes[pid].Posting?
    case WriteStatus(pid, _) => pid in s.passes && (s.passes[pid].Instance? || s.passes[pid].Writing?)
    case Crash(pid) => pid in s.passes
  }

  ghost function PostTo(libs: Libs, id: string, options: Raw): Libs {
    map n | n in libs :: if libs[n].itemId == id then libs[n].(options := options) else libs[n]
  }

  lemma PostReaches(libs: Libs, id: string, options: Raw)
    ensures
      var libs' := PostTo(libs, id, options);
      && libs'.Keys == libs.Keys
      && forall n :: n in libs ==>
           && (libs[n].itemId != id ==> libs'[n] == libs[n])
           && (libs[n].itemId == id ==> libs'[n] == Library(libs[n].collectionType, libs[n].locations, id, options))
  {
  }

  ghost function Take(s: State, step: Step): State
    requires |s.history| > 0 && Enabled(s, step)
  {
    var current := s.history[|s.history| - 1];
    match step
    case EditSpec(spec) => s.(history := s.history + [Version(spec, current.managed)])
    case HandEdit(libs) => s.(libs := libs)
    case StartInstance(pid, v) => s.(passes := s.passes[pid := Instance(s.history[v])])
    case StartApi(pid, v) => s.(passes := s.passes[pid := Listing(s.history[v])])
    case ListAndDiff(pid) =>
      var seen := s.passes[pid].seen;
      s.(passes := s.passes[pid := Calling(seen, seen.AsIntent().Pending(s.libs), DesiredIds(seen.spec.desired, s.libs))])
    case MakeCall(pid, c, reached) =>
      var p := s.passes[pid];
      s.(passes := s.passes[pid := p.(todo := p.todo - {c})], libs := if reached then Apply(c, s.libs, s.rules) else s.libs)
    case BeginPosts(pid, relist) =>
      var p := s.passes[pid];
      s.(passes := s.passes[pid := Posting(p.seen, if relist then DesiredIds(p.seen.spec.desired, s.libs) else p.ids)])
    case PostOptions(pid, id, options, reached) =>
      var p := s.passes[pid];
      s.(passes := s.passes[pid := p.(ids := p.ids - {id})], libs := if reached then PostTo(s.libs, id, options) else s.libs)
    case GiveUp(pid) => s.(passes := s.passes[pid := Writing(s.passes[pid].seen.managed)])
    case Finish(pid) =>
      var ds := s.passes[pid].seen.spec.desired;
      s.(passes := s.passes[pid := Writing(seq(|ds|, i requires 0 <= i < |ds| => ds[i].name))])
    case WriteStatus(pid, ok) =>
      var managed := if s.passes[pid].Instance? then s.passes[pid].seen.managed else s.passes[pid].managed;
      s.(passes := s.passes - {pid}, history := if ok then s.history + [Version(current.spec, managed)] else s.history)
    case Crash(pid) => s.(passes := s.passes - {pid})
  }

  /** Runs: every step enabled where it is taken. */
  ghost predicate Legal(s: State, steps: seq<Step>)
    requires |s.history| > 0
    decreases |steps|
  {
    steps != [] ==> Enabled(s, steps[0]) && Legal(Take(s, steps[0]), steps[1..])
  }

  ghost function Exec(s: State, steps: seq<Step>): (r: State)
    requires |s.history| > 0 && Legal(s, steps)
    ensures |r.history| > 0
    decreases |steps|
  {
    if steps == [] then s else Exec(Take(s, steps[0]), steps[1..])
  }

  /** A new resource: nothing managed, nothing in flight. */
  ghost predicate Initial(s: State) {
    |s.history| == 1 && s.history[0].managed == [] && s.passes == map[] && IdsByName(s.libs, s.rules)
  }

  function NameOf(c: Call): string {
    match c
    case Create(d) => d.name
    case AddPath(n, _) => n
    case RemovePath(n, _) => n
    case Remove(n) => n
  }

  ghost predicate VersionInv(s: State, v: Version) {
    && (forall n :: n in v.managed ==> s.EverDesired(n))
    && (forall d :: d in v.spec.desired ==> s.EverDesired(d.name))
  }

  ghost predicate IdsInv(s: State, ids: set<string>) {
    forall id :: id in ids ==> exists n :: s.EverDesired(n) && id == s.rules.idOf(n) && id != ""
  }

  ghost predicate PassInv(s: State, p: Pass) {
    match p
    case Instance(seen) => VersionInv(s, seen)
    case Listing(seen) => VersionInv(s, seen)
    case Calling(seen, todo, ids) => VersionInv(s, seen) && (forall c :: c in todo ==> s.EverDesired(NameOf(c))) && IdsInv(s, ids)
    case Posting(seen, ids) => VersionInv(s, seen) && IdsInv(s, ids)
    case Writing(managed) => forall n :: n in managed ==> s.EverDesired(n)
  }

  ghost predicate Inv(s: State) {
    && |s.history| > 0
    && IdsByName(s.libs, s.rules)
    && (forall v :: v in s.history ==> VersionInv(s, v))
    && (forall pid :: pid in s.passes ==> PassInv(s, s.passes[pid]))
  }

  ghost predicate SameLibrary(libs: Libs, libs': Libs, n: string) {
    (n in libs <==> n in libs') && (n in libs ==> libs[n] == libs'[n])
  }

  lemma PassInvGrows(s: State, s': State, p: Pass)
    requires PassInv(s, p) && s'.rules == s.rules && forall v :: v in s.history ==> v in s'.history
    ensures PassInv(s', p)
  {
    assert forall n :: s.EverDesired(n) ==> s'.EverDesired(n);
  }

  lemma PendingNames(s: State, v: Version, libs: Libs)
    requires VersionInv(s, v)
    ensures forall c :: c in v.AsIntent().Pending(libs) ==> s.EverDesired(NameOf(c))
  {
    PendingMembers(v.AsIntent(), libs);
    forall c | c in v.AsIntent().Pending(libs)
      ensures s.EverDesired(NameOf(c))
    {
      assert PendingCall(v.AsIntent(), libs, c);
    }
  }

  lemma ListedIds(s: State, v: Version)
    requires VersionInv(s, v) && IdsByName(s.libs, s.rules)
    ensures IdsInv(s, DesiredIds(v.spec.desired, s.libs))
  {
  }

  /** The pass a step touches is again within what was ever desired. */
  lemma TouchedPass(s: State, step: Step, pid: nat)
    requires Inv(s) && Enabled(s, step)
    requires pid in Take(s, step).passes && (pid !in s.passes || Take(s, step).passes[pid] != s.passes[pid])
    ensures PassInv(s, Take(s, step).passes[pid])
  {
    match step
    case ListAndDiff(_) => PendingNames(s, s.passes[pid].seen, s.libs); ListedIds(s, s.passes[pid].seen);
    case BeginPosts(_, relist) => ListedIds(s, s.passes[pid].seen);
    case StartInstance(_, v) => assert s.history[v] in s.history;
    case StartApi(_, v) => assert s.history[v] in s.history;
    case Finish(_) =>
      var ds := s.passes[pid].seen.spec.desired;
      assert forall d :: d in ds ==> s.EverDesired(d.name);
    case _ =>
  }

  /** The version a step appends manages only names that were desired before. */
  lemma AppendedVersion(s: State, step: Step, v: Version)
    requires Inv(s) && Enabled(s, step) && v in Take(s, step).history
    ensures VersionInv(Take(s, step), v)
  {
    var s' := Take(s, step);
    assert forall n :: s.EverDesired(n) ==> s'.EverDesired(n) by {
      assert forall w :: w in s.history ==> w in s'.history;
    }
    var current := s.history[|s.history| - 1];
    assert current in s.history;
    if v !in s.history {
      assert v == s'.history[|s'.history| - 1];
      match step
      case EditSpec(spec) =>
      case WriteStatus(pid, ok) => assert PassInv(s, s.passes[pid]);
      case _ =>
    }
  }

  lemma IdsKept(s: State, step: Step)
    requires Inv(s) && Enabled(s, step)
    ensures IdsByName(Take(s, step).libs, s.rules)
  {
  }

  /** Every step keeps all managed names, stored or in flight, within the names ever desired. */
  lemma StepKeeps(s: State, step: Step)
    requires Inv(s) && Enabled(s, step)
    ensures Inv(Take(s, step))
  {
    var s' := Take(s, step);
    IdsKept(s, step);
    forall v | v in s'.history
      ensures VersionInv(s', v)
    {
      AppendedVersion(s, step, v);
    }
    forall pid | pid in s'.passes
      ensures PassInv(s', s'.passes[pid])
    {
      if pid in s.passes && s'.passes[pid] == s.passes[pid] {
      } else {
        TouchedPass(s, step, pid);
      }
      PassInvGrows(s, s', s'.passes[pid]);
    }
  }

  /** No step of the operator touches a library whose name was never desired. */
  lemma StepSpares(s: State, step: Step, n: string)
    requires Inv(s) && Enabled(s, step) && step.ByOperator() && !s.EverDesired(n)
    ensures SameLibrary(s.libs, Take(s, step).libs, n)
  {
    match step
    case MakeCall(pid, c, reached) =>
      assert PassInv(s, s.passes[pid]);
      assert NameOf(c) != n;
    case PostOptions(pid, id, options, reached) =>
      assert PassInv(s, s.passes[pid]) && IdsInv(s, s.passes[pid].ids);
      var m :| s.EverDesired(m) && id == s.rules.idOf(m) && id != "";
    case _ =>
  }

  lemma {:induction false} EverDesiredGrows(s: State, steps: seq<Step>, n: string)
    requires |s.history| > 0 && Legal(s, steps) && s.EverDesired(n)
    ensures Exec(s, steps).EverDesired(n)
    decreases |steps|
  {
    if steps != [] {
      var s' := Take(s, steps[0]);
      assert s'.EverDesired(n) by {
        var v, d :| v in s.history && d in v.spec.desired && d.name == n;
        assert v in s'.history;
      }
      EverDesiredGrows(s', steps[1..], n);
    }
  }

  lemma {:induction false} RunKeepsInv(s: State, steps: seq<Step>)
    requires Inv(s) && Legal(s, steps)
    ensures Inv(Exec(s, steps))
    decreases |steps|
  {
    if steps != [] {
      StepKeeps(s, steps[0]);
      RunKeepsInv(Take(s, steps[0]), steps[1..]);
    }
  }

  lemma {:induction false} LegalPrefix(s: State, steps: seq<Step>, i: nat)
    requires |s.history| > 0 && Legal(s, steps) && i <= |steps|
    ensures Legal(s, steps[..i]) && Legal(Exec(s, steps[..i]), steps[i..])
    ensures Exec(Exec(s, steps[..i]), steps[i..]) == Exec(s, steps)
    decreases i
  {
    if i == 0 {
      assert steps[..i] == [] && steps[i..] == steps;
    } else {
      var s', rest := Take(s, steps[0]), steps[1..];
      assert steps[..i][0] == steps[0];
      assert steps[..i][1..] == rest[..i - 1] && rest[i - 1..] == steps[i..];
      LegalPrefix(s', rest, i - 1);
      assert Legal(s, steps[..i]);
      assert Exec(s, steps[..i]) == Exec(s', rest[..i - 1]);
    }
  }

  /** The state after the first `i` steps. */
  ghost function ExecPrefix(s: State, steps: seq<Step>, i: nat): (r: State)
    requires |s.history| > 0 && Legal(s, steps) && i <= |steps|
    ensures |r.history| > 0
    decreases i
  {
    if i == 0 then s else ExecPrefix(Take(s, steps[0]), steps[1..], i - 1)
  }

  lemma {:induction false} PrefixIs(s: State, steps: seq<Step>, i: nat)
    requires |s.history| > 0 && Legal(s, steps) && i <= |steps|
    ensures Legal(s, steps[..i]) && Exec(s, steps[..i]) == ExecPrefix(s, steps, i)
    decreases i
  {
    if i > 0 {
      assert steps[..i][1..] == steps[1..][..i - 1];
      PrefixIs(Take(s, steps[0]), steps[1..], i - 1);
    }
  }

  /**
   Prune safety over all interleavings: from a new resource, whatever both controllers read, however
   their passes interleave and fail, the managed names are always within the names ever desired, and
   no operator step changes a library whose name no spec of the run ever asked for.
   */
  lemma PruneSafety(s: State, steps: seq<Step>, i: nat, n: string)
    requires Initial(s) && Legal(s, steps) && i < |steps|
    ensures forall v, m :: v in Exec(s, steps).history && m in v.managed ==> Exec(s, steps).EverDesired(m)
    ensures steps[i].ByOperator() && !Exec(s, steps).EverDesired(n) ==>
      SameLibrary(ExecPrefix(s, steps, i).libs, ExecPrefix(s, steps, i + 1).libs, n)
  {
    assert s.history == [s.history[0]];
    assert Inv(s);
    RunKeepsInv(s, steps);
    LegalPrefix(s, steps, i);
    PrefixIs(s, steps, i);
    PrefixIs(s, steps, i + 1);
    var mid := Exec(s, steps[..i]);
    RunKeepsInv(s, steps[..i]);
    assert steps[..i + 1][..i] == steps[..i] && steps[..i + 1][i..] == [steps[i]];
    LegalPrefix(s, steps[..i + 1], i);
    assert Exec(s, steps[..i + 1]) == Exec(mid, [steps[i]]) == Take(mid, steps[i]);
    if steps[i].ByOperator() && !Exec(s, steps).EverDesired(n) {
      if mid.EverDesired(n) {
        EverDesiredGrows(mid, steps[i..], n);
      }
      StepSpares(mid, steps[i], n);
    }
  }

  /** Short of hand edits, a library nobody ever asked for is the same at the end of a run as at its start. */
  lemma {:induction false} UntoldSurvives(s: State, steps: seq<Step>, n: string)
    requires Inv(s) && Legal(s, steps) && !Exec(s, steps).EverDesired(n)
    requires forall i :: 0 <= i < |steps| ==> !steps[i].HandEdit?
    ensures SameLibrary(s.libs, Exec(s, steps).libs, n)
    decreases |steps|
  {
    if steps != [] {
      var s' := Take(s, steps[0]);
      if s.EverDesired(n) {
        EverDesiredGrows(s, steps, n);
      }
      if steps[0].ByOperator() {
        StepSpares(s, steps[0], n);
      }
      StepKeeps(s, steps[0]);
      UntoldSurvives(s', steps[1..], n);
    }
  }

  lemma {:induction false} Joined(s: State, a: seq<Step>, b: seq<Step>)
    requires |s.history| > 0 && Legal(s, a) && Legal(Exec(s, a), b)
    ensures Legal(s, a + b) && Exec(s, a + b) == Exec(Exec(s, a), b)
    decreases |a|
  {
    if a == [] {
      assert a + b == b;
    } else {
      Joined(Take(s, a[0]), a[1..], b);
      assert (a + b)[1..] == a[1..] + b;
    }
  }

  lemma Last(s: State, step: Step)
    requires |s.history| > 0 && Enabled(s, step)
    ensures Legal(s, [step]) && Exec(s, [step]) == Take(s, step)
  {
    assert [step][1..] == [];
  }

  /** The instance controller read `v`, before ownership was recorded, and writes its status last. */
  lemma OverwrittenLast(s: State, v: Version) returns (steps: seq<Step>)
    requires |s.history| > 0 && s.passes.Keys == {0, 1}
    requires s.passes[0] == Instance(v) && s.passes[1].Posting?
    ensures Legal(s, steps)
    ensures
      var last := Exec(s, steps);
      last.passes == map[] && last.libs == s.libs && last.history[|last.history| - 1] == Version(Spec([], true), v.managed)
  {
    var finish, recorded, overwritten, dropped := Finish(1), WriteStatus(1, true), WriteStatus(0, true), EditSpec(Spec([], true));
    Last(s, finish);
    var s1 := Take(s, finish);
    Last(s1, recorded);
    Joined(s, [finish], [recorded]);
    var s2 := Take(s1, recorded);
    Last(s2, overwritten);
    Joined(s, [finish] + [recorded], [overwritten]);
    var s3 := Take(s2, overwritten);
    Last(s3, dropped);
    Joined(s, [finish] + [recorded] + [overwritten], [dropped]);
    steps := [finish] + [recorded] + [overwritten] + [dropped];
    assert s3.passes == map[];
  }

  /** Both controllers read a version that desires `d`. */
  lemma BothRead(d: DesiredLibrary, rules: Rules) returns (s: State, steps: seq<Step>)
    requires IdsByName(map[], rules)
    ensures Initial(s) && Legal(s, steps)
    ensures
      var mid, v := Exec(s, steps), Version(Spec([d], true), []);
      mid.passes == map[0 := Instance(v), 1 := Listing(v)] && mid.libs == map[] && mid.rules == rules
  {
    s := State([Version(Spec([], false), [])], map[], map[], rules);
    var desired, read0, read1 := EditSpec(Spec([d], true)), StartInstance(0, 1), StartApi(1, 1);
    Last(s, desired);
    var s1 := Take(s, desired);
    Last(s1, read0);
    Joined(s, [desired], [read0]);
    Last(Take(s1, read0), read1);
    Joined(s, [desired] + [read0], [read1]);
    steps := [desired] + [read0] + [read1];
  }

  /** The API controller then lists and creates it. */
  lemma CreatedMeanwhile(s: State, d: DesiredLibrary) returns (steps: seq<Step>)
    requires |s.history| > 0 && s.libs == map[]
    requires
      var v := Version(Spec([d], true), []);
      s.passes == map[0 := Instance(v), 1 := Listing(v)]
    ensures Legal(s, steps)
    ensures
      var mid := Exec(s, steps);
      && mid.passes.Keys == {0, 1} && mid.passes[0] == s.passes[0] && mid.passes[1].Posting?
      && mid.libs == map[d.name := Created(d, s.rules)]
  {
    var list, create, posts := ListAndDiff(1), MakeCall(1, Create(d), true), BeginPosts(1, false);
    assert Version(Spec([d], true), []).AsIntent().Pending(map[]) == {Create(d)} by {
      PendingMembers(Version(Spec([d], true), []).AsIntent(), map[]);
    }
    Last(s, list);
    var s1 := Take(s, list);
    Last(s1, create);
    Joined(s, [list], [create]);
    Last(Take(s1, create), posts);
    Joined(s, [list] + [create], [posts]);
    steps := [list] + [create] + [posts];
  }

  /**
   Containment is all that can be promised. In this run the instance controller writes back the status
   it read before the API controller recorded a library it had just created; the ownership is lost, and
   when the spec drops the library, pruning no longer removes it.
   */
  lemma StaleOverwriteLosesOwnership(d: DesiredLibrary, rules: Rules) returns (s: State, steps: seq<Step>)
    requires IdsByName(map[], rules)
    ensures Initial(s) && Legal(s, steps)
    ensures
      var last := Exec(s, steps);
      var current := last.history[|last.history| - 1];
      && d.name in last.libs && last.passes == map[]
      && current.spec == Spec([], true) && d.name !in current.managed
      && current.AsIntent().Pending(last.libs) == {}
  {
    var read;
    s, read := BothRead(d, rules);
    var head := CreatedMeanwhile(Exec(s, read), d);
    Joined(s, read, head);
    head := read + head;
    var mid := Exec(s, head);
    var tail := OverwrittenLast(mid, Version(Spec([d], true), []));
    Joined(s, head, tail);
    steps := head + tail;
    PendingMembers(Intent([], [], true), mid.libs);
  }

  // ---------- what a status write decides ----------

  ghost predicate Ends(step: Step, pid: nat) {
    step == Crash(pid) || (step.WriteStatus? && step.pid == pid)
  }

  ghost function DesiredNames(v: Version): set<string> {
    set d | d in v.spec.desired :: d.name
  }

  /** A pass that waits for its status write keeps what it will write. */
  lemma {:induction false} WritingStays(s: State, steps: seq<Step>, pid: nat)
    requires |s.history| > 0 && Legal(s, steps) && pid in s.passes && s.passes[pid].Writing?
    requires forall i :: 0 <= i < |steps| ==> !Ends(steps[i], pid)
    ensures pid in Exec(s, steps).passes && Exec(s, steps).passes[pid] == s.passes[pid]
    ensures Finish(pid) !in steps
    decreases |steps|
  {
    if steps != [] {
      assert steps == [steps[0]] + steps[1..];
      assert !Ends(steps[0], pid);
      WritingStays(Take(s, steps[0]), steps[1..], pid);
    }
  }

  lemma NamesAre(ds: seq<DesiredLibrary>, names: seq<string>)
    requires |names| == |ds| && forall i :: 0 <= i < |ds| ==> names[i] == ds[i].name
    ensures forall n :: n in names <==> exists d :: d in ds && d.name == n
  {
    forall n | n in names
      ensures exists d :: d in ds && d.name == n
    {
      var i :| 0 <= i < |names| && names[i] == n;
      assert ds[i] in ds;
    }
    forall d | d in ds
      ensures d.name in names
    {
      var i :| 0 <= i < |ds| && ds[i] == d;
      assert names[i] in names;
    }
  }

  /** A pass goes by the version it read; only having finished changes what it will write. */
  lemma {:induction false} GoesByWhatItRead(s: State, steps: seq<Step>, pid: nat)
    requires |s.history| > 0 && Legal(s, steps) && pid in s.passes && !s.passes[pid].Writing?
    requires forall i :: 0 <= i < |steps| ==> !Ends(steps[i], pid)
    ensures pid in Exec(s, steps).passes
    ensures
      var p, v := Exec(s, steps).passes[pid], s.passes[pid].seen;
      if p.Writing? then (forall n :: n in p.managed <==> if Finish(pid) in steps then n in DesiredNames(v) else n in v.managed)
      else p.seen == v && p.Instance? == s.passes[pid].Instance? && Finish(pid) !in steps
    decreases |steps|
  {
    if steps != [] {
      assert steps == [steps[0]] + steps[1..];
      assert !Ends(steps[0], pid);
      var s' := Take(s, steps[0]);
      if s'.passes[pid].Writing? {
        WritingStays(s', steps[1..], pid);
        if steps[0] == Finish(pid) {
          NamesAre(s.passes[pid].seen.spec.desired, s'.passes[pid].managed);
        } else {
          assert steps[0] == GiveUp(pid);
        }
      } else {
        GoesByWhatItRead(s', steps[1..], pid);
      }
    }
  }

  /**
   When a pass started at version `v` writes its status, whatever others did in between, a name is managed
   afterwards if and only if `v` desired it, when the pass is one of the API controller that finished, and
   if and only if `v` managed it otherwise; the spec stays the current one. So the write forgets exactly the
   managed names that this condition leaves out, and both can be told before it.
   */
  lemma WriteDecidesOwnership(s: State, start: Step, pid: nat, v: nat, steps: seq<Step>)
    requires |s.history| > 0 && (start == StartInstance(pid, v) || start == StartApi(pid, v)) && Enabled(s, start)
    requires Legal(Take(s, start), steps) && forall i :: 0 <= i < |steps| ==> !Ends(steps[i], pid)
    requires Enabled(Exec(Take(s, start), steps), WriteStatus(pid, true))
    ensures
      var before := Exec(Take(s, start), steps);
      var current, written := before.history[|before.history| - 1], Take(before, WriteStatus(pid, true)).history;
      && written[..|before.history|] == before.history && |written| == |before.history| + 1
      && written[|before.history|].spec == current.spec
      && forall n :: n in written[|before.history|].managed <==>
           if Finish(pid) in steps then n in DesiredNames(s.history[v]) else n in s.history[v].managed
  {
    GoesByWhatItRead(Take(s, start), steps, pid);
  }

  // ---------- the status write ----------

  datatype WriteResult = Written | Conflict | Failed

  /** One round of the retry loop: its read erred, or its update was answered. */
  datatype Try = Unread | Tried(result: WriteResult)

  /** An update of the resource that took effect, by this writer or by another. */
  datatype Update = Update(ours: bool, before: Version, after: Version)

  /** The updates, one after the other, lead from `first` to `last`. */
  ghost predicate Chained(first: Version, updates: seq<Update>, last: Version)
    decreases updates
  {
    if updates == [] then first == last
    else updates[0].before == first && Chained(updates[0].after, updates[1..], last)
  }

  lemma {:induction false} ChainedOn(first: Version, updates: seq<Update>, mid: Version, u: Update)
    requires Chained(first, updates, mid) && u.before == mid
    ensures Chained(first, updates + [u], u.after)
    decreases updates
  {
    if updates == [] {
      assert updates + [u] == [u];
    } else {
      assert (updates + [u])[1..] == updates[1..] + [u];
      ChainedOn(updates[0].after, updates[1..], mid, u);
    }
  }

  /** The stored resource, which other writers change between any two requests. */
  class Resource {
    var current: Version
    var revision: nat
    ghost var updates: seq<Update>
    ghost var tries: seq<Try>

    constructor (current: Version)
      ensures this.current == current && updates == [] && tries == []
    {
      this.current, revision, updates, tries := current, 0, [], [];
    }

    /** The revision an update is to be guarded by; the read may err. */
    method Read() returns (ok: bool, read: nat)
      modifies this`tries
      ensures ok ==> read == revision && tries == old(tries)
      ensures !ok ==> tries == old(tries) + [Unread]
    {
      ok, read := *, revision;
      if !ok {
        tries := tries + [Unread];
      }
    }

    /** Other writers: a change always moves the revision. */
    method Interfere() returns (ghost others: seq<Update>)
      modifies this`current, this`revision, this`updates
      ensures revision >= old(revision) && (revision == old(revision) ==> others == [])
      ensures updates == old(updates) + others && Chained(old(current), others, current)
      ensures forall u :: u in others ==> !u.ours
    {
      others := [];
      var changes: int := *;
      changes := if changes < 0 then 0 else changes;
      for i := 0 to changes
        invariant revision == old(revision) + i && |others| == i
        invariant updates == old(updates) + others && Chained(old(current), others, current)
        invariant forall u :: u in others ==> !u.ours
      {
        var next: Version := *;
        ghost var u := Update(false, current, next);
        ChainedOn(old(current), others, current, u);
        others, updates := others + [u], updates + [u];
        current, revision := next, revision + 1;
      }
    }

    /** Replaces the status, unless the object moved on since it was read. A failed update may have counted. */
    method UpdateStatus(read: nat, managed: seq<string>) returns (result: WriteResult, ghost reached: bool)
      modifies this
      ensures tries == old(tries) + [Tried(result)]
      ensures reached ==>
                && read == old(revision) && current == old(current).(managed := managed)
                && updates == old(updates) + [Update(true, old(current), current)]
      ensures !reached ==> current == old(current) && revision == old(revision) && updates == old(updates)
      ensures (result.Written? ==> reached) && (result.Conflict? ==> !reached)
      ensures result.Conflict? <==> read != old(revision)
    {
      var refused: bool, lost: bool := *, *;
      reached := read == revision && !refused;
      if read != revision {
        result := Conflict;
      } else if refused {
        result := Failed;
      } else {
        ghost var was := current;
        current, revision := current.(managed := managed), revision + 1;
        updates := updates + [Update(true, was, current)];
        result := if lost then Failed else Written;
      }
      tries := tries + [Tried(result)];
    }
  }

  lemma {:induction false} ChainsJoin(first: Version, a: seq<Update>, mid: Version, b: seq<Update>, last: Version)
    requires Chained(first, a, mid) && Chained(mid, b, last)
    ensures Chained(first, a + b, last)
    decreases a
  {
    if a == [] {
      assert a + b == b;
    } else {
      assert (a + b)[1..] == a[1..] + b;
      ChainsJoin(a[0].after, a[1..], mid, b, last);
    }
  }

  /** So many rounds that all met a conflict. */
  ghost function Conflicts(n: nat): seq<Try> {
    seq(n, _ => Tried(Conflict))
  }

  /**
   Re-reads and overwrites until there is no conflict or the tries run out. At most one update of ours takes
   effect, the last of all, and exactly one on success: it met the version the other writers had left,
   whatever its status, and replaced that status and nothing else. It fails only for cause: every try met a
   conflict, or after some conflicts the read or the update itself failed.
   */
  method WriteJellyfinStatus(r: Resource, desired: seq<string>, tries: nat)
    returns (ok: bool, ghost others: seq<Update>, ghost replaced: Version, ghost reached: bool)
    modifies r
    ensures forall u :: u in others ==> !u.ours
    ensures Chained(old(r.current), others, replaced)
    ensures r.updates == old(r.updates) + others + if reached then [Update(true, replaced, r.current)] else []
    ensures r.current == if reached then replaced.(managed := desired) else replaced
    ensures ok ==> reached
    ensures exists n: nat ::
              if ok then n < tries && r.tries == old(r.tries) + Conflicts(n) + [Tried(Written)]
              else || (n == tries && r.tries == old(r.tries) + Conflicts(n))
                   || (n < tries && r.tries == old(r.tries) + Conflicts(n) + [Tried(Failed)])
                   || (n < tries && r.tries == old(r.tries) + Conflicts(n) + [Unread])
  {
    others, replaced, reached := [], r.current, false;
    for i := 0 to tries
      invariant r.updates == old(r.updates) + others && r.current == replaced && Chained(old(r.current), others, replaced)
      invariant !reached && forall u :: u in others ==> !u.ours
      invariant r.tries == old(r.tries) + Conflicts(i)
    {
      ghost var before, between;
      before := r.Interfere();
      ChainsJoin(old(r.current), others, replaced, before, r.current);
      others, replaced := others + before, r.current;
      var readable, read := r.Read();
      if !readable {
        return false, others, replaced, reached;
      }
      between := r.Interfere();
      ChainsJoin(old(r.current), others, replaced, between, r.current);
      others, replaced := others + between, r.current;
      var result;
      result, reached := r.UpdateStatus(read, desired);
      if !result.Conflict? {
        return result.Written?, others, replaced, reached;
      }
      assert Conflicts(i + 1) == Conflicts(i) + [Tried(Conflict)];
    }
    ok := false;
  }
}
