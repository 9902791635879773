/**
 The library pass as the controller runs it: list, diff, call by call in map order, enforce options,
 record ownership. Any call may fail, with or without having taken effect.
 */
module LibraryReconciler {
  import opened Common
  import opened Ordering
  import opened Overlay
  import opened Libraries
  import opened LibraryRuns
  import opened LibraryOptions

  // ---------- the diff stands for the pending calls ----------

  lemma {:induction false} OutsideMembers(xs: seq<string>, s: seq<string>)
    ensures forall x :: x in Outside(xs, s) <==> x in xs && x !in s
    ensures Distinct(xs) ==> Distinct(Outside(xs, s))
  {
    if xs != [] {
      OutsideMembers(xs[..|xs| - 1], s);
      assert xs == xs[..|xs| - 1] + [xs[|xs| - 1]];
    }
  }

  lemma {:induction false} IndexMembers(existing: seq<VirtualFolder>)
    ensures forall n :: n in Index(existing) ==> Index(existing)[n] in existing && Index(existing)[n].name == n
    ensures forall f :: f in existing ==> f.name in Index(existing)
  {
    if existing != [] {
      IndexMembers(existing[..|existing| - 1]);
      assert existing == existing[..|existing| - 1] + [existing[|existing| - 1]];
    }
  }

  lemma {:induction false} MissingMembers(desired: seq<DesiredLibrary>, index: map<string, VirtualFolder>)
    ensures forall d :: d in Missing(desired, index) <==> d in desired && d.name !in index
  {
    if desired != [] {
      MissingMembers(desired[..|desired| - 1], index);
      assert desired == desired[..|desired| - 1] + [desired[|desired| - 1]];
    }
  }

  lemma {:induction false} MissingKeepsDistinct(desired: seq<DesiredLibrary>, index: map<string, VirtualFolder>)
    requires DistinctKeys(desired, (d: DesiredLibrary) => d.name)
    ensures DistinctKeys(Missing(desired, index), (d: DesiredLibrary) => d.name)
  {
    if desired != [] {
      var init, last := desired[..|desired| - 1], desired[|desired| - 1];
      assert desired == init + [last];
      MissingKeepsDistinct(init, index);
      MissingMembers(init, index);
      forall i | 0 <= i < |Missing(init, index)|
        ensures Missing(init, index)[i].name != last.name
      {
        assert Missing(init, index)[i] in Missing(init, index);
      }
    }
  }

  lemma {:induction false} AdditionsMembers(desired: seq<DesiredLibrary>, index: map<string, VirtualFolder>, n: string)
    ensures forall p :: p in Additions(desired, index, n) <==>
      n in index && p !in index[n].locations && exists d :: d in desired && d.name == n && p in d.paths
    ensures (forall d :: d in desired ==> d.name != n) ==> Additions(desired, index, n) == []
    ensures (forall d :: d in desired ==> Distinct(d.paths)) && DistinctKeys(desired, (d: DesiredLibrary) => d.name) ==>
      Distinct(Additions(desired, index, n))
  {
    if desired != [] {
      var init, last := desired[..|desired| - 1], desired[|desired| - 1];
      assert desired == init + [last];
      AdditionsMembers(init, index, n);
      if n in index {
        OutsideMembers(last.paths, index[n].locations);
      }
    }
  }

  lemma {:induction false} RemovalsMembers(desired: seq<DesiredLibrary>, index: map<string, VirtualFolder>, n: string)
    ensures forall p :: p in Removals(desired, index, n) <==>
      n in index && p in index[n].locations && exists d :: d in desired && d.name == n && p !in d.paths
    ensures n !in index || (forall d :: d in desired ==> d.name != n) ==> Removals(desired, index, n) == []
    ensures n in index && Distinct(index[n].locations) && DistinctKeys(desired, (d: DesiredLibrary) => d.name) ==>
      Distinct(Removals(desired, index, n))
  {
    if desired != [] {
      var init, last := desired[..|desired| - 1], desired[|desired| - 1];
      assert desired == init + [last];
      RemovalsMembers(init, index, n);
      if n in index {
        OutsideMembers(index[n].locations, last.paths);
      }
    }
  }

  lemma {:induction false} PrunableMembers(existing: seq<VirtualFolder>, desired: seq<DesiredLibrary>, managed: seq<string>)
    ensures forall n :: n in Prunable(existing, desired, managed) <==>
      (exists f :: f in existing && f.name == n) && n in managed && forall d :: d in desired ==> d.name != n
    ensures DistinctKeys(existing, (f: VirtualFolder) => f.name) ==> Distinct(Prunable(existing, desired, managed))
  {
    if existing != [] {
      var init, last := existing[..|existing| - 1], existing[|existing| - 1];
      assert existing == init + [last];
      PrunableMembers(init, desired, managed);
    }
  }

  /** The lists of the diff, read as calls, are exactly the pending calls, for any desired list. */
  ghost predicate Spells(diff: LibraryDiff, it: Intent, libs: Libs) {
    && (forall d :: d in diff.toCreate <==> PendingCall(it, libs, Create(d)))
    && (forall n, p :: n in diff.pathsToAdd && p in diff.pathsToAdd[n] <==> PendingCall(it, libs, AddPath(n, p)))
    && (forall n, p :: n in diff.pathsToRemove && p in diff.pathsToRemove[n] <==> PendingCall(it, libs, RemovePath(n, p)))
    && (forall n :: n in diff.toRemove <==> PendingCall(it, libs, Remove(n)))
  }

  lemma IndexOfListing(existing: seq<VirtualFolder>, libs: Libs)
    requires Lists(existing, libs)
    ensures forall n :: n in Index(existing) <==> n in libs
    ensures forall n :: n in libs ==>
      Distinct(Index(existing)[n].locations) && forall p :: p in Index(existing)[n].locations <==> p in libs[n].locations
  {
    IndexMembers(existing);
  }

  lemma DiffSpellsAdd(diff: LibraryDiff, it: Intent, existing: seq<VirtualFolder>, libs: Libs, n: string, p: string)
    requires TabulatesAdditions(diff.pathsToAdd, it.desired, Index(existing)) && Lists(existing, libs)
    ensures n in diff.pathsToAdd && p in diff.pathsToAdd[n] <==> PendingCall(it, libs, AddPath(n, p))
  {
    IndexOfListing(existing, libs);
    AdditionsMembers(it.desired, Index(existing), n);
  }

  lemma DiffSpellsPathRemoval(diff: LibraryDiff, it: Intent, existing: seq<VirtualFolder>, libs: Libs, n: string, p: string)
    requires TabulatesRemovals(diff.pathsToRemove, it.desired, Index(existing)) && Lists(existing, libs)
    ensures n in diff.pathsToRemove && p in diff.pathsToRemove[n] <==> PendingCall(it, libs, RemovePath(n, p))
  {
    IndexOfListing(existing, libs);
    RemovalsMembers(it.desired, Index(existing), n);
  }

  lemma DiffSpellsCreate(diff: LibraryDiff, it: Intent, existing: seq<VirtualFolder>, libs: Libs, d: DesiredLibrary)
    requires IsDiff(diff, it.desired, existing, it.managed, it.prune) && Lists(existing, libs)
    ensures d in diff.toCreate <==> PendingCall(it, libs, Create(d))
  {
    IndexOfListing(existing, libs);
    MissingMembers(it.desired, Index(existing));
    PermutationMembers(diff.toCreate, Missing(it.desired, Index(existing)));
  }

  lemma DiffSpellsRemove(diff: LibraryDiff, it: Intent, existing: seq<VirtualFolder>, libs: Libs, n: string)
    requires IsDiff(diff, it.desired, existing, it.managed, it.prune) && Lists(existing, libs)
    ensures n in diff.toRemove <==> PendingCall(it, libs, Remove(n))
  {
    PrunableMembers(existing, it.desired, it.managed);
    PermutationMembers(diff.toRemove, if it.prune then Prunable(existing, it.desired, it.managed) else []);
  }

  lemma DiffSpellsPending(diff: LibraryDiff, it: Intent, existing: seq<VirtualFolder>, libs: Libs)
    requires IsDiff(diff, it.desired, existing, it.managed, it.prune) && Lists(existing, libs)
    ensures Spells(diff, it, libs)
  {
    forall d
      ensures d in diff.toCreate <==> PendingCall(it, libs, Create(d))
    {
      DiffSpellsCreate(diff, it, existing, libs, d);
    }
    forall n, p
      ensures n in diff.pathsToAdd && p in diff.pathsToAdd[n] <==> PendingCall(it, libs, AddPath(n, p))
    {
      DiffSpellsAdd(diff, it, existing, libs, n, p);
    }
    forall n, p
      ensures n in diff.pathsToRemove && p in diff.pathsToRemove[n] <==> PendingCall(it, libs, RemovePath(n, p))
    {
      DiffSpellsPathRemoval(diff, it, existing, libs, n, p);
    }
    forall n
      ensures n in diff.toRemove <==> PendingCall(it, libs, Remove(n))
    {
      DiffSpellsRemove(diff, it, existing, libs, n);
    }
  }

  /** A diff that spells the pending calls has changes exactly when some call is pending. */
  lemma ChangedIffSpelled(diff: LibraryDiff, it: Intent, libs: Libs)
    requires Spells(diff, it, libs)
    ensures diff.Changed() <==> exists c :: PendingCall(it, libs, c)
  {
    if |diff.toCreate| > 0 {
      assert diff.toCreate[0] in diff.toCreate;
      assert PendingCall(it, libs, Create(diff.toCreate[0]));
    }
    if |diff.toRemove| > 0 {
      assert diff.toRemove[0] in diff.toRemove;
      assert PendingCall(it, libs, Remove(diff.toRemove[0]));
    }
    if n :| n in diff.pathsToAdd && |diff.pathsToAdd[n]| > 0 {
      assert diff.pathsToAdd[n][0] in diff.pathsToAdd[n];
      assert PendingCall(it, libs, AddPath(n, diff.pathsToAdd[n][0]));
    }
    if n :| n in diff.pathsToRemove && |diff.pathsToRemove[n]| > 0 {
      assert diff.pathsToRemove[n][0] in diff.pathsToRemove[n];
      assert PendingCall(it, libs, RemovePath(n, diff.pathsToRemove[n][0]));
    }
    if c :| PendingCall(it, libs, c) {
      match c
      case Create(d) => assert d in diff.toCreate;
      case AddPath(n, p) => assert p in diff.pathsToAdd[n];
      case RemovePath(n, p) => assert p in diff.pathsToRemove[n];
      case Remove(n) => assert n in diff.toRemove;
    }
  }

  /** `Changed` is exact: false precisely when no call is pending. */
  lemma ChangedIffPending(diff: LibraryDiff, it: Intent, existing: seq<VirtualFolder>, libs: Libs)
    requires IsDiff(diff, it.desired, existing, it.managed, it.prune) && Lists(existing, libs)
    ensures diff.Changed() <==> it.Pending(libs) != {}
  {
    DiffSpellsPending(diff, it, existing, libs);
    ChangedIffSpelled(diff, it, libs);
    PendingMembers(it, libs);
  }

  lemma PathsRepeatNothing(diff: LibraryDiff, it: Intent, existing: seq<VirtualFolder>, libs: Libs, n: string)
    requires IsDiff(diff, it.desired, existing, it.managed, it.prune) && Lists(existing, libs)
    requires it.DistinctNames() && forall d :: d in it.desired ==> Distinct(d.paths)
    ensures n in diff.pathsToAdd ==> Distinct(diff.pathsToAdd[n])
    ensures n in diff.pathsToRemove ==> Distinct(diff.pathsToRemove[n])
  {
    var index := Index(existing);
    assert Distinct(Additions(it.desired, index, n)) by {
      AdditionsMembers(it.desired, index, n);
    }
    assert Distinct(Removals(it.desired, index, n)) by {
      IndexOfListing(existing, libs);
      RemovalsMembers(it.desired, index, n);
    }
  }

  /** With distinct library names and distinct paths no call appears twice in the diff. */
  lemma DiffRepeatsNothing(diff: LibraryDiff, it: Intent, existing: seq<VirtualFolder>, libs: Libs)
    requires IsDiff(diff, it.desired, existing, it.managed, it.prune) && Lists(existing, libs)
    requires it.DistinctNames() && forall d :: d in it.desired ==> Distinct(d.paths)
    ensures Distinct(diff.toCreate) && Distinct(diff.toRemove)
    ensures forall n :: n in diff.pathsToAdd ==> Distinct(diff.pathsToAdd[n])
    ensures forall n :: n in diff.pathsToRemove ==> Distinct(diff.pathsToRemove[n])
  {
    forall n {
      PathsRepeatNothing(diff, it, existing, libs, n);
    }
    MissingKeepsDistinct(it.desired, Index(existing));
    PermutationKeepsDistinctKeys(Missing(it.desired, Index(existing)), diff.toCreate, (d: DesiredLibrary) => d.name);
    PrunableMembers(existing, it.desired, it.managed);
    PermutationKeepsDistinctKeys(if it.prune then Prunable(existing, it.desired, it.managed) else [],
                                 diff.toRemove, (n: string) => n);
  }

  // ---------- the server ----------

  /** A library's item id is unset or the one the server derives from its name. */
  ghost predicate IdsByName(libs: Libs, rules: Rules) {
    && (forall n :: n in libs ==> libs[n].itemId == "" || libs[n].itemId == rules.idOf(n))
    && (forall n, n' :: n != n' && rules.idOf(n) == rules.idOf(n') ==> rules.idOf(n) == "")
  }

  lemma ListsOneMore(folders: seq<VirtualFolder>, part: Libs, f: VirtualFolder)
    requires Lists(folders, part) && f.name !in part && Distinct(f.locations)
    ensures Lists(folders + [f], part[f.name := Library(f.collectionType, ToSet(f.locations), f.itemId, f.options)])
  {
    var part' := part[f.name := Library(f.collectionType, ToSet(f.locations), f.itemId, f.options)];
    assert forall g :: g in folders + [f] <==> g in folders || g == f;
    forall n
      ensures n in part' <==> exists g :: g in folders + [f] && g.name == n
    {
      if n in part {
        var g :| g in folders && g.name == n;
        assert g in folders + [f];
      }
    }
  }

  /** A request as it was sent, and whether it reported success. */
  datatype Request =
    | Listed(ok: bool)
    | Called(c: Call, ok: bool)
    | Posted(id: string, options: Raw, ok: bool)
    | Rescanned(ok: bool)

  class Server {
    var libs: Libs
    ghost var requests: seq<Request>
    const rules: Rules

    constructor (libs: Libs, rules: Rules)
      ensures this.libs == libs && this.rules == rules && requests == []
    {
      this.libs, this.rules, requests := libs, rules, [];
    }

    /** A listing, in any order; the request may fail. */
    method ListVirtualFolders() returns (ok: bool, folders: seq<VirtualFolder>)
      modifies this`requests
      ensures requests == old(requests) + [Listed(ok)]
      ensures ok ==> Lists(folders, libs)
    {
      ok, folders := *, [];
      requests := requests + [Listed(ok)];
      var rest := libs.Keys;
      while rest != {}
        invariant rest <= libs.Keys && requests == old(requests) + [Listed(ok)]
        invariant Lists(folders, map n | n in libs && n !in rest :: libs[n])
        decreases rest
      {
        var n :| n in rest;
        var locations := Enumerate(libs[n].locations);
        var f := VirtualFolder(n, libs[n].collectionType, locations, libs[n].itemId, libs[n].options);
        assert ToSet(f.locations) == libs[n].locations;
        ListsOneMore(folders, map m | m in libs && m !in rest :: libs[m], f);
        assert (map m | m in libs && m !in rest :: libs[m])[n := libs[n]]
            == map m | m in libs && m !in rest - {n} :: libs[m];
        folders, rest := folders + [f], rest - {n};
      }
      assert libs == map n | n in libs && n !in rest :: libs[n];
    }

    /** One mutating request. When it fails it may or may not have taken effect. */
    method Do(c: Call) returns (ok: bool)
      modifies this
      ensures requests == old(requests) + [Called(c, ok)]
      ensures libs == Apply(c, old(libs), rules) || (!ok && libs == old(libs))
    {
      var reached: bool := *;
      ok := *;
      requests := requests + [Called(c, ok)];
      if reached || ok {
        libs := Apply(c, libs, rules);
      }
    }

    /** Replaces the options of the library with this item id. */
    method UpdateLibraryOptions(id: string, options: Raw) returns (ok: bool)
      modifies this
      ensures requests == old(requests) + [Posted(id, options, ok)]
      ensures var posted := map n | n in old(libs) ::
          if old(libs)[n].itemId == id then old(libs)[n].(options := options) else old(libs)[n];
        libs == posted || (!ok && libs == old(libs))
    {
      var reached: bool := *;
      ok := *;
      requests := requests + [Posted(id, options, ok)];
      if reached || ok {
        libs := map n | n in libs :: if libs[n].itemId == id then libs[n].(options := options) else libs[n];
      }
    }

    /** Asks for a scan of the libraries. */
    method RefreshLibraries() returns (ok: bool)
      modifies this`requests
      ensures requests == old(requests) + [Rescanned(ok)]
    {
      ok := *;
      requests := requests + [Rescanned(ok)];
    }
  }

  method Enumerate(s: set<string>) returns (xs: seq<string>)
    ensures Distinct(xs) && forall x :: x in xs <==> x in s
  {
    xs := [];
    var rest := s;
    while rest != {}
      invariant rest <= s && Distinct(xs)
      invariant forall x :: x in xs <==> x in s && x !in rest
      decreases rest
    {
      var x :| x in rest;
      xs, rest := xs + [x], rest - {x};
    }
  }

  // ---------- the pass ----------

  /** Calls that all reported success, as requests. */
  ghost function Calls(done: seq<Call>): seq<Request> {
    seq(|done|, i requires 0 <= i < |done| => Called(done[i], true))
  }

  /** The server is where the calls in `done`, all pending at `start`, took it; they are what was sent since `log`. */
  ghost predicate Tracks(srv: Server, it: Intent, start: Libs, log: seq<Request>, done: seq<Call>)
    reads srv
  {
    Schedules(it, start, done) && srv.libs == Run(done, start, srv.rules) && srv.requests == log + Calls(done)
  }

  /** The same, but that the last call sent reported an error; it may have counted. */
  ghost predicate Stopped(srv: Server, it: Intent, start: Libs, log: seq<Request>, done: seq<Call>)
    reads srv
  {
    && Schedules(it, start, done) && srv.libs == Run(done, start, srv.rules)
    && exists init, c ::
         PendingCall(it, start, c) && c !in init && (done == init || done == init + [c])
         && srv.requests == log + Calls(init) + [Called(c, false)]
  }

  /** The calls made so far, told by their lists. */
  ghost predicate Made(done: seq<Call>, created: seq<DesiredLibrary>, added: map<string, seq<string>>,
                       removed: map<string, seq<string>>, gone: seq<string>)
  {
    forall c :: c in done <==>
      match c
      case Create(d) => d in created
      case AddPath(n, p) => n in added && p in added[n]
      case RemovePath(n, p) => n in removed && p in removed[n]
      case Remove(n) => n in gone
  }

  method Issue(srv: Server, c: Call, ghost it: Intent, ghost start: Libs, ghost log: seq<Request>, ghost done: seq<Call>)
    returns (ok: bool, ghost done': seq<Call>)
    requires Tracks(srv, it, start, log, done) && PendingCall(it, start, c) && c !in done
    modifies srv
    ensures if ok then Tracks(srv, it, start, log, done') && done' == done + [c] else Stopped(srv, it, start, log, done')
  {
    ok := srv.Do(c);
    done' := if srv.libs == old(srv.libs) && !ok then done else done + [c];
    assert (done + [c])[..|done|] == done;
    assert ok ==> srv.requests == log + Calls(done + [c]);
  }

  method CreateLibraries(srv: Server, toCreate: seq<DesiredLibrary>, ghost it: Intent, ghost start: Libs, ghost log: seq<Request>)
    returns (ok: bool, ghost done: seq<Call>)
    requires srv.libs == start && srv.requests == log && Distinct(toCreate) && forall d :: d in toCreate ==> PendingCall(it, start, Create(d))
    modifies srv
    ensures if ok then Tracks(srv, it, start, log, done) else Stopped(srv, it, start, log, done)
    ensures ok ==> Made(done, toCreate, map[], map[], [])
  {
    ok, done := true, [];
    for i := 0 to |toCreate|
      invariant ok && Tracks(srv, it, start, log, done) && Made(done, toCreate[..i], map[], map[], [])
    {
      assert toCreate[..i + 1] == toCreate[..i] + [toCreate[i]];
      ok, done := Issue(srv, Create(toCreate[i]), it, start, log, done);
      if !ok { return; }
    }
    assert toCreate[..|toCreate|] == toCreate;
  }

  /** The paths of one library, in the order of its list. */
  method EditPaths(srv: Server, adding: bool, n: string, paths: seq<string>, ghost it: Intent, ghost start: Libs, ghost log: seq<Request>, ghost done0: seq<Call>)
    returns (ok: bool, ghost done: seq<Call>)
    requires Tracks(srv, it, start, log, done0) && Distinct(paths)
    requires forall p :: p in paths ==> PendingCall(it, start, PathCall(adding, n, p)) && PathCall(adding, n, p) !in done0
    modifies srv
    ensures if ok then Tracks(srv, it, start, log, done) else Stopped(srv, it, start, log, done)
    ensures ok ==> forall c :: c in done <==> c in done0 || exists p :: p in paths && c == PathCall(adding, n, p)
  {
    ok, done := true, done0;
    for i := 0 to |paths|
      invariant ok && Tracks(srv, it, start, log, done)
      invariant forall c :: c in done <==> c in done0 || exists p :: p in paths[..i] && c == PathCall(adding, n, p)
    {
      assert paths[..i + 1] == paths[..i] + [paths[i]];
      ok, done := Issue(srv, PathCall(adding, n, paths[i]), it, start, log, done);
      if !ok { return; }
    }
    assert paths[..|paths|] == paths;
  }

  function PathCall(adding: bool, n: string, p: string): Call {
    if adding then AddPath(n, p) else RemovePath(n, p)
  }

  /** A Go map of paths per library: the libraries come in any order. */
  method EditLibraries(srv: Server, adding: bool, edits: map<string, seq<string>>, ghost it: Intent, ghost start: Libs, ghost log: seq<Request>, ghost done0: seq<Call>)
    returns (ok: bool, ghost done: seq<Call>)
    requires Tracks(srv, it, start, log, done0) && (forall n :: n in edits ==> Distinct(edits[n]))
    requires forall n, p :: n in edits && p in edits[n] ==> PendingCall(it, start, PathCall(adding, n, p)) && PathCall(adding, n, p) !in done0
    modifies srv
    ensures if ok then Tracks(srv, it, start, log, done) else Stopped(srv, it, start, log, done)
    ensures ok ==> forall c :: c in done <==> c in done0 || exists n, p :: n in edits && p in edits[n] && c == PathCall(adding, n, p)
  {
    ok, done := true, done0;
    var rest := edits.Keys;
    while rest != {}
      invariant rest <= edits.Keys && ok && Tracks(srv, it, start, log, done)
      invariant forall c :: c in done <==> c in done0 || exists n, p :: n in edits && n !in rest && p in edits[n] && c == PathCall(adding, n, p)
      decreases rest
    {
      var n :| n in rest;
      ok, done := EditPaths(srv, adding, n, edits[n], it, start, log, done);
      if !ok { return; }
      rest := rest - {n};
    }
  }

  method RemoveLibraries(srv: Server, toRemove: seq<string>, ghost it: Intent, ghost start: Libs, ghost log: seq<Request>, ghost done0: seq<Call>)
    returns (ok: bool, ghost done: seq<Call>)
    requires Tracks(srv, it, start, log, done0) && Distinct(toRemove)
    requires forall n :: n in toRemove ==> PendingCall(it, start, Remove(n)) && Remove(n) !in done0
    modifies srv
    ensures if ok then Tracks(srv, it, start, log, done) else Stopped(srv, it, start, log, done)
    ensures ok ==> forall c :: c in done <==> c in done0 || (c.Remove? && c.name in toRemove)
  {
    ok, done := true, done0;
    for i := 0 to |toRemove|
      invariant ok && Tracks(srv, it, start, log, done)
      invariant forall c :: c in done <==> c in done0 || (c.Remove? && c.name in toRemove[..i])
    {
      assert toRemove[..i + 1] == toRemove[..i] + [toRemove[i]];
      ok, done := Issue(srv, Remove(toRemove[i]), it, start, log, done);
      if !ok { return; }
    }
    assert toRemove[..|toRemove|] == toRemove;
  }

  lemma AllMade(diff: LibraryDiff, it: Intent, start: Libs, d1: seq<Call>, d2: seq<Call>, d3: seq<Call>, d4: seq<Call>)
    requires Spells(diff, it, start) && Made(d1, diff.toCreate, map[], map[], [])
    requires forall c :: c in d2 <==> c in d1 || exists n, p :: n in diff.pathsToAdd && p in diff.pathsToAdd[n] && c == PathCall(true, n, p)
    requires forall c :: c in d3 <==> c in d2 || exists n, p :: n in diff.pathsToRemove && p in diff.pathsToRemove[n] && c == PathCall(false, n, p)
    requires forall c :: c in d4 <==> c in d3 || (c.Remove? && c.name in diff.toRemove)
    ensures forall c :: c in d4 <==> PendingCall(it, start, c)
  {
    forall c
      ensures c in d4 <==> PendingCall(it, start, c)
    {
      match c
      case Create(d) =>
      case AddPath(n, p) => assert c == PathCall(true, n, p);
      case RemovePath(n, p) => assert c == PathCall(false, n, p);
      case Remove(n) =>
    }
  }

  /** All calls of the diff, in the controller's order. */
  method ApplyDiff(srv: Server, diff: LibraryDiff, ghost it: Intent)
    returns (ok: bool, ghost done: seq<Call>)
    requires Spells(diff, it, srv.libs) && Distinct(diff.toCreate) && Distinct(diff.toRemove)
    requires forall n :: n in diff.pathsToAdd ==> Distinct(diff.pathsToAdd[n])
    requires forall n :: n in diff.pathsToRemove ==> Distinct(diff.pathsToRemove[n])
    modifies srv
    ensures if ok then Tracks(srv, it, old(srv.libs), old(srv.requests), done) else Stopped(srv, it, old(srv.libs), old(srv.requests), done)
    ensures ok ==> forall c :: c in done <==> PendingCall(it, old(srv.libs), c)
  {
    ghost var start, log := srv.libs, srv.requests;
    ghost var d1, d2, d3;
    ok, done := CreateLibraries(srv, diff.toCreate, it, start, log);
    if !ok { return; }
    d1 := done;
    ok, done := EditLibraries(srv, true, diff.pathsToAdd, it, start, log, done);
    if !ok { return; }
    d2 := done;
    ok, done := EditLibraries(srv, false, diff.pathsToRemove, it, start, log, done);
    if !ok { return; }
    d3 := done;
    ok, done := RemoveLibraries(srv, diff.toRemove, it, start, log, done);
    if ok {
      AllMade(diff, it, start, d1, d2, d3, done);
    }
  }

  // ---------- options ----------

  /** The option step's answer for one library. */
  ghost function OptionsFor(lib: Library, d: DesiredLibrary): Outcome {
    Enforced(lib.options, d.preventWrites, d.options)
  }

  /** The option step concerns the library of this name. */
  ghost predicate Concerns(libs: Libs, d: DesiredLibrary) {
    d.name in libs && libs[d.name].itemId != ""
  }

  /** The same libraries, but for their options. */
  ghost predicate SameButOptions(libs: Libs, before: Libs) {
    libs.Keys == before.Keys && forall n :: n in libs ==> libs[n] == before[n].(options := libs[n].options)
  }

  /** `libs` after the option step has dealt with the entries in `ds`. */
  ghost predicate OptionsEnforced(libs: Libs, before: Libs, ds: seq<DesiredLibrary>) {
    && SameButOptions(libs, before)
    && (forall d :: d in ds && Concerns(before, d) ==>
          OptionsFor(before[d.name], d).Ok? && libs[d.name].options == OptionsFor(before[d.name], d).value.0)
    && (forall n :: n in libs && (forall d :: d in ds && Concerns(before, d) ==> d.name != n) ==> libs[n] == before[n])
  }

  /** Some library's options are posted. */
  ghost predicate Posts(before: Libs, ds: seq<DesiredLibrary>) {
    exists d :: d in ds && Concerns(before, d) && OptionsFor(before[d.name], d).Ok? && OptionsFor(before[d.name], d).value.1
  }

  /** The posts the option step is to send, in the order of the entries. */
  ghost function PostsOf(before: Libs, ds: seq<DesiredLibrary>): seq<Request> {
    if ds == [] then []
    else
      var d := ds[|ds| - 1];
      PostsOf(before, ds[..|ds| - 1])
      + if Posts(before, [d]) then [Posted(before[d.name].itemId, OptionsFor(before[d.name], d).value.0, true)] else []
  }

  /** Something is posted exactly when some entry calls for it. */
  lemma {:induction false} PostsOfSome(before: Libs, ds: seq<DesiredLibrary>)
    ensures PostsOf(before, ds) != [] <==> Posts(before, ds)
  {
    if ds != [] {
      var init, d := ds[..|ds| - 1], ds[|ds| - 1];
      PostsOfSome(before, init);
      assert ds == init + [d];
      assert forall e :: e in ds <==> e in init || e in [d];
    }
  }

  /** The options of some library that the step concerns, or those declared for it, are no object. */
  ghost predicate Undecodable(before: Libs, ds: seq<DesiredLibrary>) {
    exists d :: d in ds && Concerns(before, d) && OptionsFor(before[d.name], d).Err?
  }

  /** What a folder of a listing tells the option step, right for the libraries that matter. */
  ghost predicate Describes(byName: map<string, VirtualFolder>, libs: Libs, ds: seq<DesiredLibrary>) {
    forall d :: d in ds ==>
      && (d.name in byName <==> d.name in libs)
      && (d.name in libs ==> byName[d.name].itemId == libs[d.name].itemId && byName[d.name].options == libs[d.name].options)
  }

  /** The composition of the two engines for one desired library. */
  method OptionsOf(f: VirtualFolder, d: DesiredLibrary) returns (r: Outcome)
    ensures r == Enforced(f.options, d.preventWrites, d.options)
  {
    var merged, libChanged := f.options, false;
    if d.preventWrites {
      var answer := EnforceReadOnlyOptions(merged);
      var updated :- answer;
      if updated.1 {
        merged, libChanged := updated.0, true;
      }
      OverlayKeepsWhenUnchanged(f.options);
    }
    if !d.options.Absent? {
      var answer := MergeLibraryOptions(merged, d.options);
      var updated :- answer;
      if updated.1 {
        merged, libChanged := updated.0, true;
      }
    }
    r := Ok((merged, libChanged));
  }

  lemma OverlayKeepsWhenUnchanged(current: Raw)
    ensures
      var o := Overlaid(current, READ_ONLY_OPTIONS);
      o.Ok? && !o.value.1 ==> o.value.0 == current
  {
  }

  lemma EnforceOneMore(libs: Libs, libs': Libs, before: Libs, ds: seq<DesiredLibrary>, d: DesiredLibrary)
    requires OptionsEnforced(libs, before, ds) && (forall e :: e in ds ==> e.name != d.name)
    requires libs'.Keys == libs.Keys
    requires forall n :: n in libs && n != d.name ==> libs'[n] == libs[n]
    requires d.name in libs && !Concerns(before, d) ==> libs'[d.name] == libs[d.name]
    requires Concerns(before, d) ==> OptionsFor(before[d.name], d).Ok?
    requires Concerns(before, d) ==> libs'[d.name] == libs[d.name].(options := OptionsFor(before[d.name], d).value.0)
    ensures OptionsEnforced(libs', before, ds + [d])
  {
    assert forall e :: e in ds + [d] <==> e in ds || e == d;
  }

  /** The last request sent since `log` reported an error. */
  ghost predicate Failed(log: seq<Request>, requests: seq<Request>) {
    |requests| > |log| && log <= requests && !requests[|requests| - 1].ok
  }

  lemma PostsOfOne(before: Libs, d: DesiredLibrary)
    ensures PostsOf(before, [d]) ==
            if Concerns(before, d) && OptionsFor(before[d.name], d).Ok? && OptionsFor(before[d.name], d).value.1
            then [Posted(before[d.name].itemId, OptionsFor(before[d.name], d).value.0, true)] else []
  {
    assert [d][..0] == [] && d in [d];
  }

  /** The option step for one desired library; `dealt` says whether it took effect. */
  method EnforceOne(srv: Server, d: DesiredLibrary, byName: map<string, VirtualFolder>, ghost before: Libs, ghost ds: seq<DesiredLibrary>)
    returns (ok: bool, posted: bool, ghost dealt: bool)
    requires IdsByName(srv.libs, srv.rules) && IdsByName(before, srv.rules) && Describes(byName, before, [d])
    requires OptionsEnforced(srv.libs, before, ds) && forall e :: e in ds ==> e.name != d.name
    modifies srv
    ensures IdsByName(srv.libs, srv.rules)
    ensures OptionsEnforced(srv.libs, before, if dealt then ds + [d] else ds)
    ensures ok ==> dealt && (posted <==> PostsOf(before, [d]) != []) && srv.requests == old(srv.requests) + PostsOf(before, [d])
    ensures !ok ==> old(srv.requests) <= srv.requests && (Undecodable(before, [d]) || Failed(old(srv.requests), srv.requests))
  {
    ghost var libs := srv.libs;
    ok, posted, dealt := true, false, false;
    assert d in [d];
    PostsOfOne(before, d);
    if d.name in byName && byName[d.name].itemId != "" {
      var f := byName[d.name];
      assert libs[d.name] == before[d.name];
      var answer := OptionsOf(f, d);
      if answer.Err? {
        return false, posted, dealt;
      }
      var (merged, libChanged) := answer.value;
      if libChanged {
        ok := srv.UpdateLibraryOptions(f.itemId, merged);
        posted := ok;
      } else {
        UnchangedAnswer(f.options, d.preventWrites, d.options);
      }
    }
    dealt := ok || srv.libs != libs;
    if dealt {
      EnforceOneMore(libs, srv.libs, before, ds, d);
    }
  }

  /** The option step has gone through the first `i` entries without an error. */
  ghost predicate Through(srv: Server, before: Libs, log: seq<Request>, desired: seq<DesiredLibrary>, i: nat, anyChanged: bool)
    requires i <= |desired|
    reads srv
  {
    && IdsByName(srv.libs, srv.rules) && OptionsEnforced(srv.libs, before, desired[..i])
    && srv.requests == log + PostsOf(before, desired[..i])
    && (anyChanged <==> PostsOf(before, desired[..i]) != [])
  }

  /** It broke off for cause. */
  ghost predicate BrokenOff(srv: Server, before: Libs, log: seq<Request>, desired: seq<DesiredLibrary>, dealt: nat)
    requires dealt <= |desired|
    reads srv
  {
    && OptionsEnforced(srv.libs, before, desired[..dealt]) && log <= srv.requests
    && (Undecodable(before, desired) || Failed(log, srv.requests))
  }

  method EnforceNext(srv: Server, desired: seq<DesiredLibrary>, i: nat, byName: map<string, VirtualFolder>, anyChanged: bool,
                     ghost before: Libs, ghost log: seq<Request>)
    returns (ok: bool, anyChanged': bool, ghost dealt: nat)
    requires i < |desired| && DistinctKeys(desired, (d: DesiredLibrary) => d.name)
    requires IdsByName(before, srv.rules) && Describes(byName, before, desired)
    requires Through(srv, before, log, desired, i, anyChanged)
    modifies srv
    ensures ok ==> Through(srv, before, log, desired, i + 1, anyChanged')
    ensures dealt <= |desired| && (!ok ==> BrokenOff(srv, before, log, desired, dealt))
  {
    NamesBefore(desired, i);
    OneMoreEntry(before, desired, i);
    var posted;
    ghost var did;
    ok, posted, did := EnforceOne(srv, desired[i], byName, before, desired[..i]);
    dealt := if did then i + 1 else i;
    anyChanged' := anyChanged || posted;
  }

  /**
   The option step. However it ends, the libraries of the first `dealt` entries hold their enforced options
   and no other library changed; a post that reports an error may have counted. It fails only for cause.
   */
  method EnforceLibraryOptions(srv: Server, desired: seq<DesiredLibrary>, folders: seq<VirtualFolder>)
    returns (ok: bool, anyChanged: bool, ghost dealt: nat)
    requires IdsByName(srv.libs, srv.rules) && Describes(Index(folders), srv.libs, desired)
    requires DistinctKeys(desired, (d: DesiredLibrary) => d.name)
    modifies srv
    ensures dealt <= |desired| && OptionsEnforced(srv.libs, old(srv.libs), desired[..dealt])
    ensures ok ==> OptionsEnforced(srv.libs, old(srv.libs), desired)
    ensures ok ==> (anyChanged <==> Posts(old(srv.libs), desired))
    ensures ok ==> srv.requests == old(srv.requests) + PostsOf(old(srv.libs), desired)
    ensures !ok ==> Undecodable(old(srv.libs), desired) || Failed(old(srv.requests), srv.requests)
    ensures SameButOptions(srv.libs, old(srv.libs)) && old(srv.requests) <= srv.requests
  {
    ghost var before, log := srv.libs, srv.requests;
    var byName := FoldersByName(folders);
    ok, anyChanged, dealt := true, false, |desired|;
    for i := 0 to |desired|
      invariant ok && dealt == |desired| && Through(srv, before, log, desired, i, anyChanged)
    {
      ghost var reached;
      ok, anyChanged, reached := EnforceNext(srv, desired, i, byName, anyChanged, before, log);
      if !ok {
        dealt := reached;
        return;
      }
    }
    assert desired[..|desired|] == desired;
    PostsOfSome(before, desired);
  }

  lemma NamesBefore(desired: seq<DesiredLibrary>, i: nat)
    requires i < |desired| && DistinctKeys(desired, (d: DesiredLibrary) => d.name)
    ensures forall e :: e in desired[..i] ==> e.name != desired[i].name
    ensures desired[..i + 1] == desired[..i] + [desired[i]]
  {
    var key := (d: DesiredLibrary) => d.name;
    forall e | e in desired[..i]
      ensures e.name != desired[i].name
    {
      var j :| 0 <= j < i && desired[j] == e;
      assert key(desired[j]) != key(desired[i]);
    }
  }

  /** What entry `i` adds to the posts and to the causes for failing. */
  lemma OneMoreEntry(before: Libs, desired: seq<DesiredLibrary>, i: nat)
    requires i < |desired|
    ensures PostsOf(before, desired[..i + 1]) == PostsOf(before, desired[..i]) + PostsOf(before, [desired[i]])
    ensures Undecodable(before, [desired[i]]) ==> Undecodable(before, desired)
  {
    var d := desired[i];
    assert desired[..i + 1][..i] == desired[..i] && desired[..i + 1][i] == d && [d][..0] == [];
    assert d in desired;
  }

  /** An answer without a change flag is the current options. */
  lemma UnchangedAnswer(current: Raw, preventWrites: bool, options: Raw)
    ensures
      var r := Enforced(current, preventWrites, options);
      r.Ok? && !r.value.1 ==> r.value.0 == current
  {
  }

  // ---------- the whole pass ----------

  lemma {:induction false} RunKeepsIds(calls: seq<Call>, libs: Libs, rules: Rules)
    requires IdsByName(libs, rules)
    ensures IdsByName(Run(calls, libs, rules), rules)
  {
    if calls != [] {
      RunKeepsIds(calls[..|calls| - 1], libs, rules);
    }
  }

  /** A listing taken before the calls still tells the options, as long as nothing was created. */
  lemma OldListingDescribes(it: Intent, existing: seq<VirtualFolder>, start: Libs, rules: Rules)
    requires Lists(existing, start) && it.DistinctNames()
    requires forall d :: d in it.desired ==> d.name in start
    ensures Describes(Index(existing), it.Goal(start, rules), it.desired)
  {
    IndexMembers(existing);
    forall d | d in it.desired
      ensures d.name in it.Goal(start, rules)
      ensures it.Goal(start, rules)[d.name] == start[d.name].(locations := ToSet(d.paths))
    {
      GoalOfPresent(it, start, rules, d);
    }
  }

  lemma GoalOfPresent(it: Intent, start: Libs, rules: Rules, d: DesiredLibrary)
    requires it.DistinctNames() && d in it.desired && d.name in start
    ensures d.name in it.Goal(start, rules)
    ensures it.Goal(start, rules)[d.name] == start[d.name].(locations := ToSet(d.paths))
  {
    GoalPointwise(it, start, rules, d.name);
  }

  lemma FreshListingDescribes(ds: seq<DesiredLibrary>, folders: seq<VirtualFolder>, libs: Libs)
    requires Lists(folders, libs)
    ensures Describes(Index(folders), libs, ds)
  {
    IndexMembers(folders);
  }

  /** The diff creates something exactly when a desired library is missing. */
  lemma CreatesIff(diff: LibraryDiff, it: Intent, libs: Libs)
    requires Spells(diff, it, libs)
    ensures |diff.toCreate| > 0 <==> exists d :: d in it.desired && d.name !in libs
  {
    if |diff.toCreate| > 0 {
      assert diff.toCreate[0] in diff.toCreate;
      assert PendingCall(it, libs, Create(diff.toCreate[0]));
    }
    if d :| d in it.desired && d.name !in libs {
      assert PendingCall(it, libs, Create(d));
    }
  }

  /**
   One pass. `done` are the calls that took effect and `mid` the server after them; the option step then
   dealt with the first `dealt` desired libraries and touched no other; ownership is recorded only when
   everything went through. A pass fails only for cause: its last request did, or the options of a library
   it concerns do not decode. A pass that goes through has sent a listing, the pending calls, another listing
   if it created something, the posts the options call for, and a rescan if one is wanted and anything changed.
   */
  method ReconcileLibraries(srv: Server, desired: seq<DesiredLibrary>, managed: seq<string>, prune: bool, refresh: bool)
    returns (ok: bool, managed': seq<string>, ghost done: seq<Call>, ghost mid: Libs, ghost dealt: nat)
    requires Intent(desired, managed, prune).DistinctNames() && forall d :: d in desired ==> Distinct(d.paths)
    requires IdsByName(srv.libs, srv.rules)
    modifies srv
    ensures Schedules(Intent(desired, managed, prune), old(srv.libs), done) && mid == Run(done, old(srv.libs), srv.rules)
    ensures dealt <= |desired| && OptionsEnforced(srv.libs, mid, desired[..dealt])
    ensures !ok ==> managed' == managed
    ensures !ok ==> Failed(old(srv.requests), srv.requests) || Undecodable(mid, desired)
    ensures ok ==>
              var it := Intent(desired, managed, prune);
              srv.requests == old(srv.requests) + [Listed(true)] + Calls(done)
                + (if SomeMissing(desired, old(srv.libs)) then [Listed(true)] else [])
                + PostsOf(mid, desired)
                + (if refresh && (AnyPending(it, old(srv.libs)) || PostsOf(mid, desired) != []) then [Rescanned(true)] else [])
    ensures ok ==> mid == Intent(desired, managed, prune).Goal(old(srv.libs), srv.rules)
    ensures SameButOptions(srv.libs, mid)
    ensures ok ==> OptionsEnforced(srv.libs, mid, desired)
    ensures ok ==> SortedBy(managed', (n: string) => n) && forall n :: n in managed' <==> exists d :: d in desired && d.name == n
  {
    managed', dealt := managed, 0;
    var changed, created, folders;
    ok, changed, created, folders, done := MakeCalls(srv, desired, managed, prune);
    mid := srv.libs;
    NothingDealt(mid, desired);
    if !ok { return; }
    ghost var log := srv.requests;
    ok, folders := ListAgain(srv, desired, folders, created);
    if !ok {
      FailedLater(old(srv.requests), log, srv.requests);
      return;
    }
    log := srv.requests;
    ok, dealt := EnforceAndRescan(srv, desired, folders, changed, refresh);
    if !ok {
      if !Undecodable(mid, desired) {
        FailedLater(old(srv.requests), log, srv.requests);
      }
      return;
    }
    managed' := NamesOf(desired);
  }

  lemma NothingDealt(libs: Libs, desired: seq<DesiredLibrary>)
    ensures OptionsEnforced(libs, libs, desired[..0]) && SameButOptions(libs, libs)
  {
  }

  lemma FailedLater(a: seq<Request>, b: seq<Request>, c: seq<Request>)
    requires a <= b && Failed(b, c)
    ensures Failed(a, c)
  {
  }

  /** The second half of a pass: the option step, and a rescan if one is wanted and anything changed. */
  method EnforceAndRescan(srv: Server, desired: seq<DesiredLibrary>, folders: seq<VirtualFolder>, changed: bool, refresh: bool)
    returns (ok: bool, ghost dealt: nat)
    requires IdsByName(srv.libs, srv.rules) && Describes(Index(folders), srv.libs, desired)
    requires DistinctKeys(desired, (d: DesiredLibrary) => d.name)
    modifies srv
    ensures dealt <= |desired| && OptionsEnforced(srv.libs, old(srv.libs), desired[..dealt]) && SameButOptions(srv.libs, old(srv.libs))
    ensures !ok ==> Undecodable(old(srv.libs), desired) || Failed(old(srv.requests), srv.requests)
    ensures ok ==>
              && OptionsEnforced(srv.libs, old(srv.libs), desired)
              && var posts := PostsOf(old(srv.libs), desired);
              srv.requests == old(srv.requests) + posts + if refresh && (changed || posts != []) then [Rescanned(true)] else []
  {
    ghost var log, before := srv.requests, srv.libs;
    var optsChanged;
    ok, optsChanged, dealt := EnforceLibraryOptions(srv, desired, folders);
    if !ok { return; }
    PostsOfSome(before, desired);
    ghost var log1 := srv.requests;
    ok := RescanIf(srv, (changed || optsChanged) && refresh);
    if !ok {
      FailedLater(log, log1, srv.requests);
    }
  }

  ghost predicate SomeMissing(desired: seq<DesiredLibrary>, libs: Libs) {
    exists d :: d in desired && d.name !in libs
  }

  ghost predicate AnyPending(it: Intent, libs: Libs) {
    exists c :: PendingCall(it, libs, c)
  }

  /** A new listing, if something was created; otherwise the first one still serves. */
  method ListAgain(srv: Server, desired: seq<DesiredLibrary>, folders: seq<VirtualFolder>, created: bool)
    returns (ok: bool, folders': seq<VirtualFolder>)
    requires !created ==> Describes(Index(folders), srv.libs, desired)
    modifies srv`requests
    ensures srv.requests == old(srv.requests) + if created then [Listed(ok)] else []
    ensures !ok ==> Failed(old(srv.requests), srv.requests)
    ensures ok ==> Describes(Index(folders'), srv.libs, desired)
  {
    ok, folders' := true, folders;
    if created {
      ok, folders' := srv.ListVirtualFolders();
      if ok {
        FreshListingDescribes(desired, folders', srv.libs);
      }
    }
  }

  method RescanIf(srv: Server, wanted: bool) returns (ok: bool)
    modifies srv`requests
    ensures srv.requests == old(srv.requests) + if wanted then [Rescanned(ok)] else []
    ensures !ok ==> Failed(old(srv.requests), srv.requests)
  {
    ok := true;
    if wanted {
      ok := srv.RefreshLibraries();
    }
  }

  /** The first half of a pass: the listing and the calls of the diff. The listing still serves if nothing was created. */
  method MakeCalls(srv: Server, desired: seq<DesiredLibrary>, managed: seq<string>, prune: bool)
    returns (ok: bool, changed: bool, created: bool, folders: seq<VirtualFolder>, ghost done: seq<Call>)
    requires Intent(desired, managed, prune).DistinctNames() && forall d :: d in desired ==> Distinct(d.paths)
    requires IdsByName(srv.libs, srv.rules)
    modifies srv
    ensures Schedules(Intent(desired, managed, prune), old(srv.libs), done) && srv.libs == Run(done, old(srv.libs), srv.rules)
    ensures IdsByName(srv.libs, srv.rules) && old(srv.requests) <= srv.requests
    ensures !ok ==> Failed(old(srv.requests), srv.requests)
    ensures ok ==>
              && (changed <==> AnyPending(Intent(desired, managed, prune), old(srv.libs)))
              && (created <==> SomeMissing(desired, old(srv.libs)))
              && srv.libs == Intent(desired, managed, prune).Goal(old(srv.libs), srv.rules)
              && srv.requests == old(srv.requests) + [Listed(true)] + Calls(done)
              && (!created ==> Describes(Index(folders), srv.libs, desired))
  {
    ghost var it, start, log := Intent(desired, managed, prune), srv.libs, srv.requests;
    changed, created, done := false, false, [];
    EmptySchedule(it, start, srv.rules);
    ok, folders := srv.ListVirtualFolders();
    if !ok { return; }
    ok, changed, created, done := MakeListed(srv, desired, managed, prune, folders);
    RunKeepsIds(done, start, srv.rules);
    if !ok {
      assert Failed(log, srv.requests);
      return;
    }
    CompleteRun(it, start, srv.rules, done);
    if !created {
      OldListingDescribes(it, folders, start, srv.rules);
    }
  }

  lemma EmptySchedule(it: Intent, libs: Libs, rules: Rules)
    ensures Schedules(it, libs, []) && Run([], libs, rules) == libs
  {
  }

  /** The calls of the diff against a listing. */
  method MakeListed(srv: Server, desired: seq<DesiredLibrary>, managed: seq<string>, prune: bool, folders: seq<VirtualFolder>)
    returns (ok: bool, changed: bool, created: bool, ghost done: seq<Call>)
    requires Intent(desired, managed, prune).DistinctNames() && forall d :: d in desired ==> Distinct(d.paths)
    requires Lists(folders, srv.libs)
    modifies srv
    ensures Schedules(Intent(desired, managed, prune), old(srv.libs), done) && srv.libs == Run(done, old(srv.libs), srv.rules)
    ensures if ok then srv.requests == old(srv.requests) + Calls(done) else Failed(old(srv.requests), srv.requests)
    ensures ok ==> forall c :: c in done <==> PendingCall(Intent(desired, managed, prune), old(srv.libs), c)
    ensures changed <==> AnyPending(Intent(desired, managed, prune), old(srv.libs))
    ensures created <==> SomeMissing(desired, old(srv.libs))
  {
    ghost var it, start := Intent(desired, managed, prune), srv.libs;
    var diff := DiffLibraries(desired, folders, managed, prune);
    DiffSpellsPending(diff, it, folders, start);
    DiffRepeatsNothing(diff, it, folders, start);
    CreatesIff(diff, it, start);
    ChangedIffSpelled(diff, it, start);
    changed, created := diff.Changed(), |diff.toCreate| > 0;
    ok, done := ApplyDiff(srv, diff, it);
    assert !ok ==> Failed(old(srv.requests), srv.requests);
  }

  method NamesOf(desired: seq<DesiredLibrary>) returns (names: seq<string>)
    ensures SortedBy(names, (n: string) => n)
    ensures forall n :: n in names <==> exists d :: d in desired && d.name == n
  {
    names := [];
    for i := 0 to |desired|
      invariant forall n :: n in names <==> exists d :: d in desired[..i] && d.name == n
    {
      assert desired[..i + 1] == desired[..i] + [desired[i]];
      names := names + [desired[i].name];
    }
    assert desired[..|desired|] == desired;
    SortByKeeps(names, (n: string) => n);
    SortByMembers(names, (n: string) => n);
    names := SortBy(names, (n: string) => n);
  }

  lemma NothingPending(it: Intent, libs: Libs)
    requires forall d :: d in it.desired ==> d.name in libs && libs[d.name].locations == ToSet(d.paths)
    requires it.DistinctNames() && forall n :: n in it.managed ==> it.Names(n)
    ensures it.Pending(libs) == {}
  {
    PendingMembers(it, libs);
    assert forall c :: !PendingCall(it, libs, c);
  }

  lemma PassPlacesPaths(it: Intent, start: Libs, after: Libs, rules: Rules, d: DesiredLibrary)
    requires it.DistinctNames() && SameButOptions(after, it.Goal(start, rules)) && d in it.desired
    ensures d.name in after && after[d.name].locations == ToSet(d.paths)
  {
    GoalPointwise(it, start, rules, d.name);
  }

  /** After a successful pass nothing is pending, under the ownership it recorded. */
  lemma PassSettles(it: Intent, managed': seq<string>, start: Libs, after: Libs, rules: Rules)
    requires it.DistinctNames() && SameButOptions(after, it.Goal(start, rules))
    requires forall n :: n in managed' <==> it.Names(n)
    ensures it.(managed := managed').Pending(after) == {}
    ensures forall d :: d in it.desired ==> d.name in after && after[d.name].locations == ToSet(d.paths)
  {
    forall d | d in it.desired {
      PassPlacesPaths(it, start, after, rules, d);
    }
    var it' := it.(managed := managed');
    assert forall n :: it'.Names(n) <==> it.Names(n);
    NothingPending(it', after);
  }

  /**
   A second option step, over what the first one left, changes no library's options, and posts
   exactly when a read-only library's declared options contradict the read-only table.
   */
  lemma SecondOptionStep(before: Libs, after: Libs, ds: seq<DesiredLibrary>)
    requires OptionsEnforced(after, before, ds) && DistinctKeys(ds, (d: DesiredLibrary) => d.name)
    ensures OptionsEnforced(after, after, ds)
    ensures Posts(after, ds) <==>
      exists d :: d in ds && Concerns(before, d) && d.preventWrites && LibraryOptions.Contradicts(d.options)
  {
    forall d | d in ds && Concerns(before, d)
      ensures Concerns(after, d)
      ensures OptionsFor(after[d.name], d) == Ok((after[d.name].options, d.preventWrites && LibraryOptions.Contradicts(d.options)))
    {
      assert after[d.name] == before[d.name].(options := after[d.name].options);
      LibraryOptions.SecondPass(before[d.name].options, d.preventWrites, d.options);
    }
  }
}
