/**
 What the diff's calls do to the server: re-diffing after any part of them, in any order, yields the
 calls not yet made, and every complete order ends in the same converged state.
 */
module LibraryRuns {
  import opened Common
  import opened Overlay
  import opened Libraries

  datatype Call =
    | Create(lib: DesiredLibrary)
    | AddPath(name: string, path: string)
    | RemovePath(name: string, path: string)
    | Remove(name: string)

  /** What the server decides about a library it creates: its item id and its default options. */
  datatype Rules = Rules(idOf: string -> string, optionsOf: DesiredLibrary -> Raw)

  function Created(d: DesiredLibrary, rules: Rules): Library {
    Library(d.collectionType, ToSet(d.paths), rules.idOf(d.name), rules.optionsOf(d))
  }

  /** The server's side of a call; a call it cannot honour changes nothing. */
  function Apply(c: Call, libs: Libs, rules: Rules): Libs {
    match c
    case Create(d) => if d.name in libs then libs else libs[d.name := Created(d, rules)]
    case AddPath(n, p) =>
      if n in libs then libs[n := libs[n].(locations := libs[n].locations + {p})] else libs
    case RemovePath(n, p) =>
      if n in libs then libs[n := libs[n].(locations := libs[n].locations - {p})] else libs
    case Remove(n) => libs - {n}
  }

  function Run(calls: seq<Call>, libs: Libs, rules: Rules): Libs {
    if calls == [] then libs
    else Apply(calls[|calls| - 1], Run(calls[..|calls| - 1], libs, rules), rules)
  }

  /** What the operator is after: the desired libraries, the names it manages, and whether it prunes. */
  datatype Intent = Intent(desired: seq<DesiredLibrary>, managed: seq<string>, prune: bool)
  {
    ghost predicate Names(n: string) {
      exists d :: d in desired && d.name == n
    }

    ghost predicate DistinctNames() {
      forall i, j :: 0 <= i < j < |desired| ==> desired[i].name != desired[j].name
    }

    /** The calls a diff against `libs` stands for. */
    ghost function Pending(libs: Libs): set<Call> {
      (set d | d in desired && d.name !in libs :: Create(d))
      + (set d, p | d in desired && d.name in libs && p in d.paths && p !in libs[d.name].locations :: AddPath(d.name, p))
      + (set d, p | d in desired && d.name in libs && p in libs[d.name].locations && p !in d.paths :: RemovePath(d.name, p))
      + (set n | n in libs && prune && n in managed && !Names(n) :: Remove(n))
    }

    /** What the server should finally hold under `n`. */
    ghost function GoalAt(libs: Libs, rules: Rules, n: string): Option<Library> {
      if Names(n) then
        var d :| d in desired && d.name == n;
        Some(if n in libs then libs[n].(locations := ToSet(d.paths)) else Created(d, rules))
      else if n in libs && !(prune && n in managed) then Some(libs[n])
      else None
    }

    /** Where the server should end: desired libraries with exactly their paths, stale managed ones gone. */
    ghost function Goal(libs: Libs, rules: Rules): Libs {
      map n | n in libs.Keys + (set d | d in desired :: d.name) && GoalAt(libs, rules, n).Some? ::
        GoalAt(libs, rules, n).value
    }
  }

  ghost predicate PendingCall(it: Intent, libs: Libs, c: Call) {
    match c
    case Create(d) => d in it.desired && d.name !in libs
    case AddPath(n, p) => n in libs && p !in libs[n].locations && exists d :: d in it.desired && d.name == n && p in d.paths
    case RemovePath(n, p) => n in libs && p in libs[n].locations && exists d :: d in it.desired && d.name == n && p !in d.paths
    case Remove(n) => n in libs && it.prune && n in it.managed && !it.Names(n)
  }

  lemma PendingMembers(it: Intent, libs: Libs)
    ensures forall c :: c in it.Pending(libs) <==> PendingCall(it, libs, c)
  {
  }

  /** Making one pending call settles that call and nothing else. */
  lemma OneCall(it: Intent, libs: Libs, rules: Rules, c: Call)
    requires it.DistinctNames() && c in it.Pending(libs)
    ensures it.Pending(Apply(c, libs, rules)) == it.Pending(libs) - {c}
  {
    var libs' := Apply(c, libs, rules);
    PendingMembers(it, libs);
    PendingMembers(it, libs');
    forall c'
      ensures PendingCall(it, libs', c') <==> PendingCall(it, libs, c') && c' != c
    {
      OneCallAt(it, libs, rules, c, c');
    }
  }

  lemma OneCallAt(it: Intent, libs: Libs, rules: Rules, c: Call, c': Call)
    requires it.DistinctNames() && PendingCall(it, libs, c)
    ensures PendingCall(it, Apply(c, libs, rules), c') <==> PendingCall(it, libs, c') && c' != c
  {
  }

  /** The calls of a run: each pending at the start, none made twice. */
  ghost predicate Schedules(it: Intent, libs: Libs, calls: seq<Call>) {
    Distinct(calls) && forall c :: c in calls ==> PendingCall(it, libs, c)
  }

  lemma SchedulesInit(it: Intent, libs: Libs, calls: seq<Call>)
    requires Schedules(it, libs, calls) && calls != []
    ensures Schedules(it, libs, calls[..|calls| - 1]) && calls[|calls| - 1] !in calls[..|calls| - 1]
    ensures PendingCall(it, libs, calls[|calls| - 1])
  {
    assert calls[|calls| - 1] in calls;
  }

  lemma TakeAway(start: set<Call>, mid: set<Call>, init: seq<Call>, c: Call)
    requires mid == start - ToSet(init) && |mid| == |start| - |init| && c in mid
    ensures mid - {c} == start - ToSet(init + [c])
    ensures |mid - {c}| == |start| - |init + [c]|
  {
    assert ToSet(init + [c]) == ToSet(init) + {c};
  }

  lemma NothingLeft(start: set<Call>, calls: seq<Call>)
    requires forall c :: c in start ==> c in calls
    ensures start - ToSet(calls) == {}
  {
  }

  /**
   Resumability: however many of the pending calls were made, and in whatever order, a new diff
   yields exactly the calls not yet made.
   */
  lemma {:induction false} Resume(it: Intent, libs: Libs, rules: Rules, calls: seq<Call>)
    requires it.DistinctNames() && Schedules(it, libs, calls)
    ensures it.Pending(Run(calls, libs, rules)) == it.Pending(libs) - ToSet(calls)
    ensures |it.Pending(Run(calls, libs, rules))| == |it.Pending(libs)| - |calls|
  {
    var start := it.Pending(libs);
    if calls == [] {
      assert ToSet(calls) == {};
    } else {
      var init, c := calls[..|calls| - 1], calls[|calls| - 1];
      InitAndLast(calls);
      SchedulesInit(it, libs, calls);
      Resume(it, libs, rules, init);
      var mid := it.Pending(Run(init, libs, rules));
      assert c in start by { PendingMembers(it, libs); }
      OneCall(it, Run(init, libs, rules), rules, c);
      TakeAway(start, mid, init, c);
    }
  }

  /** The converged state is where the server already is exactly when nothing is pending. */
  lemma GoalIffSettled(it: Intent, libs: Libs, rules: Rules)
    requires it.DistinctNames()
    ensures it.Goal(libs, rules) == libs <==> it.Pending(libs) == {}
  {
    if it.Pending(libs) == {} {
      SettledIsGoal(it, libs, rules);
    } else {
      var c :| c in it.Pending(libs);
      PendingMembers(it, libs);
      PendingIsNotGoal(it, libs, rules, c);
    }
  }

  lemma SettledIsGoal(it: Intent, libs: Libs, rules: Rules)
    requires it.DistinctNames() && it.Pending(libs) == {}
    ensures it.Goal(libs, rules) == libs
  {
    var g := it.Goal(libs, rules);
    PendingMembers(it, libs);
    forall n
      ensures n in g <==> n in libs
      ensures n in g ==> g[n] == libs[n]
    {
      GoalPointwise(it, libs, rules, n);
      assert !PendingCall(it, libs, Remove(n));
      if it.Names(n) {
        var d :| d in it.desired && d.name == n;
        assert !PendingCall(it, libs, Create(d));
        forall p
          ensures p in libs[n].locations <==> p in d.paths
        {
          assert !PendingCall(it, libs, AddPath(n, p)) && !PendingCall(it, libs, RemovePath(n, p));
        }
        assert libs[n].locations == ToSet(d.paths);
      }
    }
  }

  lemma PendingIsNotGoal(it: Intent, libs: Libs, rules: Rules, c: Call)
    requires it.DistinctNames() && PendingCall(it, libs, c)
    ensures it.Goal(libs, rules) != libs
  {
    var g := it.Goal(libs, rules);
    match c {
      case Create(d) => GoalPointwise(it, libs, rules, d.name);
      case AddPath(n, p) => GoalPointwise(it, libs, rules, n); assert p in g[n].locations;
      case RemovePath(n, p) => GoalPointwise(it, libs, rules, n); assert p !in g[n].locations;
      case Remove(n) => GoalPointwise(it, libs, rules, n);
    }
  }

  lemma GoalPointwise(it: Intent, libs: Libs, rules: Rules, n: string)
    ensures n in it.Goal(libs, rules) <==> it.GoalAt(libs, rules, n).Some?
    ensures n in it.Goal(libs, rules) ==> it.Goal(libs, rules)[n] == it.GoalAt(libs, rules, n).value
  {
  }

  lemma GoalFixedAt(it: Intent, libs: Libs, rules: Rules, c: Call, n: string)
    requires it.DistinctNames() && PendingCall(it, libs, c)
    ensures it.GoalAt(Apply(c, libs, rules), rules, n) == it.GoalAt(libs, rules, n)
  {
  }

  /** A pending call does not move the goal. */
  lemma GoalFixed(it: Intent, libs: Libs, rules: Rules, c: Call)
    requires it.DistinctNames() && c in it.Pending(libs)
    ensures it.Goal(Apply(c, libs, rules), rules) == it.Goal(libs, rules)
  {
    var g, g' := it.Goal(libs, rules), it.Goal(Apply(c, libs, rules), rules);
    assert PendingCall(it, libs, c) by { PendingMembers(it, libs); }
    forall n
      ensures (n in g <==> n in g') && (n in g ==> g[n] == g'[n])
    {
      GoalFixedAt(it, libs, rules, c, n);
      GoalPointwise(it, libs, rules, n);
      GoalPointwise(it, Apply(c, libs, rules), rules, n);
    }
    assert g == g';
  }

  /**
   Confluence: every complete order of the pending calls ends in the goal, where nothing is pending.
   */
  lemma {:induction false} CompleteRun(it: Intent, libs: Libs, rules: Rules, calls: seq<Call>)
    requires it.DistinctNames() && Distinct(calls) && forall c :: c in calls <==> PendingCall(it, libs, c)
    ensures Run(calls, libs, rules) == it.Goal(libs, rules)
    ensures it.Pending(Run(calls, libs, rules)) == {}
  {
    RunKeepsGoal(it, libs, rules, calls);
    assert it.Pending(Run(calls, libs, rules)) == {} by {
      Resume(it, libs, rules, calls);
      PendingMembers(it, libs);
      NothingLeft(it.Pending(libs), calls);
    }
    GoalIffSettled(it, Run(calls, libs, rules), rules);
  }

  lemma {:induction false} RunKeepsGoal(it: Intent, libs: Libs, rules: Rules, calls: seq<Call>)
    requires it.DistinctNames() && Schedules(it, libs, calls)
    ensures it.Goal(Run(calls, libs, rules), rules) == it.Goal(libs, rules)
  {
    if calls != [] {
      var init, c := calls[..|calls| - 1], calls[|calls| - 1];
      assert calls == init + [c];
      RunKeepsGoal(it, libs, rules, init);
      Resume(it, libs, rules, init);
      PendingMembers(it, libs);
      assert c !in init;
      GoalFixed(it, Run(init, libs, rules), rules, c);
    }
  }

  /** At the goal each desired library has exactly its paths, and libraries nobody managed are untouched. */
  lemma GoalMeaning(it: Intent, libs: Libs, rules: Rules)
    requires it.DistinctNames()
    ensures forall d :: d in it.desired ==>
      && d.name in it.Goal(libs, rules)
      && var lib := it.Goal(libs, rules)[d.name];
      && lib.locations == ToSet(d.paths)
      && (d.name in libs ==> lib == libs[d.name].(locations := ToSet(d.paths)))
      && (d.name !in libs ==> lib.collectionType == d.collectionType && lib.itemId == rules.idOf(d.name) && lib.options == rules.optionsOf(d))
    ensures forall n :: !it.Names(n) && (n !in it.managed || !it.prune) ==>
      (n in libs <==> n in it.Goal(libs, rules)) && (n in libs ==> it.Goal(libs, rules)[n] == libs[n])
    ensures forall n :: it.prune && n in it.managed && !it.Names(n) ==> n !in it.Goal(libs, rules)
  {
  }

  /** Two desired entries of one library name ask for the same paths. */
  ghost predicate Coherent(desired: seq<DesiredLibrary>) {
    forall d, e :: d in desired && e in desired && d.name == e.name ==> ToSet(d.paths) == ToSet(e.paths)
  }

  /**
   Some state of the server settles the diff exactly when entries sharing a name agree on their
   paths; two media folders under one library name therefore never settle.
   */
  lemma SettlesIff(it: Intent)
    ensures (exists libs: Libs :: it.Pending(libs) == {}) <==> Coherent(it.desired)
  {
    if Coherent(it.desired) {
      var libs: Libs := map n | it.Names(n) && n in (set d | d in it.desired :: d.name) ::
        var d :| d in it.desired && d.name == n; Library("", ToSet(d.paths), "", Absent);
      PendingMembers(it, libs);
      assert forall d :: d in it.desired ==> d.name in libs && libs[d.name].locations == ToSet(d.paths);
      assert forall c :: !PendingCall(it, libs, c);
      assert it.Pending(libs) == {};
    }
    forall libs: Libs | it.Pending(libs) == {}
      ensures Coherent(it.desired)
    {
      PendingMembers(it, libs);
      forall d | d in it.desired
        ensures d.name in libs && libs[d.name].locations == ToSet(d.paths)
      {
        assert !PendingCall(it, libs, Create(d));
        forall p
          ensures p in libs[d.name].locations <==> p in d.paths
        {
          assert !PendingCall(it, libs, AddPath(d.name, p)) && !PendingCall(it, libs, RemovePath(d.name, p));
        }
      }
    }
  }
}
