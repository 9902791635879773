/**
 The gate over whole runs: plugin passes and instance passes interleave with each other and with edits,
 each reading whatever version its cache holds, and only the status write is guarded by the resource
 version.
 */
module AbiGateRuns {
  import opened Common
  import opened Ordering
  import opened Versions
  import opened AbiGate

  /** A plugin pass between its read and its status write. */
  datatype Pass = Pass(name: string, seen: nat, chosen: Option<GatedInstance>)

  /** A status write that happened: it made `version` out of a check of `spec` against `chosen`. */
  datatype Record = Record(name: string, version: nat, spec: Spec, chosen: Option<GatedInstance>)
  {
    ghost predicate Refuses() {
      !Accepts(spec.targetAbi, chosen)
    }
  }

  /** A pod template built for `jf`: the version read of each plugin listed, and the plugins let in. */
  datatype Template = Template(jf: GatedInstance, read: map<string, nat>, admitted: seq<GatedPlugin>)
  {
    predicate Admits(name: string) {
      exists p :: p in admitted && p.name == name
    }
  }

  /** Every version of every plugin, the passes in flight, the status writes so far, the templates so far. */
  datatype State =
    State(plugins: map<string, seq<GatedPlugin>>, passes: map<nat, Pass>, records: seq<Record>, templates: seq<Template>)

  datatype Step =
    | Create(p: GatedPlugin)
    | Edit(name: string, spec: Spec)
    | Begin(pid: nat, name: string, version: nat, chosen: Option<GatedInstance>)
    | Write(pid: nat, deployments: map<string, Replicas>)
    | Abandon(pid: nat)
    | Inject(jf: GatedInstance, order: seq<string>, read: map<string, nat>)

  ghost predicate Exists(plugins: map<string, seq<GatedPlugin>>, name: string, version: nat) {
    name in plugins && version < |plugins[name]|
  }

  ghost predicate Enabled(s: State, step: Step) {
    match step
    case Create(p) => p.name !in s.plugins && p.status == NO_STATUS
    case Edit(name, _) => name in s.plugins && s.plugins[name] != []
    case Begin(pid, name, version, chosen) =>
      pid !in s.passes && Exists(s.plugins, name, version)
      && (chosen.Some? ==> Candidate(s.plugins[name][version], chosen.value))
    case Write(pid, _) => pid in s.passes && Exists(s.plugins, s.passes[pid].name, s.passes[pid].seen)
    case Abandon(pid) => pid in s.passes
    case Inject(_, order, read) =>
      Distinct(order) && (forall n :: n in order <==> n in read) && forall n :: n in order ==> Exists(s.plugins, n, read[n])
  }

  ghost function Listed(s: State, order: seq<string>, read: map<string, nat>): seq<GatedPlugin>
    requires forall n :: n in order ==> n in read && Exists(s.plugins, n, read[n])
  {
    seq(|order|, i requires 0 <= i < |order| => assert order[i] in order && Exists(s.plugins, order[i], read[order[i]]); s.plugins[order[i]][read[order[i]]])
  }

  ghost function Take(s: State, step: Step): State
    requires Enabled(s, step)
  {
    match step
    case Create(p) => s.(plugins := s.plugins[p.name := [p]])
    case Edit(name, spec) =>
      var versions := s.plugins[name];
      s.(plugins := s.plugins[name := versions + [versions[|versions| - 1].(spec := spec)]])
    case Begin(pid, name, version, chosen) => s.(passes := s.passes[pid := Pass(name, version, chosen)])
    case Write(pid, deployments) =>
      var pass := s.passes[pid];
      var versions := s.plugins[pass.name];
      var p := versions[pass.seen];
      var ended := s.(passes := s.passes - {pid});
      if pass.seen != |versions| - 1 then ended
      else
        var ok := Accepts(p.spec.targetAbi, pass.chosen);
        var status := Recorded(p.status, p.spec, ok, pass.chosen.Some?, deployments);
        ended.(plugins := s.plugins[pass.name := versions + [p.(status := status)]],
               records := s.records + [Record(pass.name, |versions|, p.spec, pass.chosen)])
    case Abandon(pid) => s.(passes := s.passes - {pid})
    case Inject(jf, order, read) =>
      s.(templates := s.templates + [Template(jf, read, Healthy(Bound(jf, Listed(s, order, read))))])
  }

  ghost predicate Legal(s: State, steps: seq<Step>)
    decreases steps
  {
    steps != [] ==> Enabled(s, steps[0]) && Legal(Take(s, steps[0]), steps[1..])
  }

  ghost function Exec(s: State, steps: seq<Step>): State
    requires Legal(s, steps)
    decreases steps
  {
    if steps == [] then s else Exec(Take(s, steps[0]), steps[1..])
  }

  const INITIAL := State(map[], map[], [], [])

  // ---------- what the status remembers ----------

  /** The latest status write a reader of `version` of plugin `name` can know of. */
  ghost function LastRecord(records: seq<Record>, name: string, version: nat): Option<Record> {
    if records == [] then None
    else
      var r := records[|records| - 1];
      if r.name == name && r.version <= version then Some(r) else LastRecord(records[..|records| - 1], name, version)
  }

  ghost predicate Refused(records: seq<Record>, name: string, version: nat) {
    var r := LastRecord(records, name, version);
    r.Some? && r.value.Refuses()
  }

  /** Versions that no record separates are judged alike. */
  lemma {:induction false} NoRecordBetween(records: seq<Record>, name: string, v: nat, w: nat)
    requires v <= w && forall r :: r in records && r.name == name ==> r.version <= v
    ensures LastRecord(records, name, v) == LastRecord(records, name, w)
  {
    if records != [] {
      assert records[|records| - 1] in records;
      NoRecordBetween(records[..|records| - 1], name, v, w);
    }
  }

  ghost predicate PluginsKept(s: State) {
    forall n :: n in s.plugins ==>
      s.plugins[n] != [] && forall i :: 0 <= i < |s.plugins[n]| ==> s.plugins[n][i].name == n
  }

  ghost predicate RecordsKept(s: State) {
    forall r :: r in s.records ==> Exists(s.plugins, r.name, r.version) && s.plugins[r.name][r.version].spec == r.spec
  }

  ghost predicate VerdictsKept(s: State) {
    forall n, i: nat :: Exists(s.plugins, n, i) ==> (Blocked(s.plugins[n][i].status) <==> Refused(s.records, n, i))
  }

  /** A template lets in just those of the plugins read that bind and that no known write refused. */
  ghost predicate Sound(t: Template, s: State) {
    forall n :: n in t.read ==>
      Exists(s.plugins, n, t.read[n])
      && (t.Admits(n) <==> Binds(t.jf, s.plugins[n][t.read[n]]) && !Refused(s.records, n, t.read[n]))
  }

  ghost predicate Inv(s: State) {
    && PluginsKept(s) && RecordsKept(s) && VerdictsKept(s)
    && (forall t :: t in s.templates ==> Sound(t, s))
  }

  /** Versions and records only grow, and growth leaves old versions judged as they were. */
  ghost predicate Grows(s: State, t: State) {
    && (forall n, i: nat :: Exists(s.plugins, n, i) ==> Exists(t.plugins, n, i) && t.plugins[n][i] == s.plugins[n][i])
    && (forall n, i: nat :: Exists(s.plugins, n, i) ==> LastRecord(t.records, n, i) == LastRecord(s.records, n, i))
  }

  lemma SoundStays(t: Template, s: State, u: State)
    requires Sound(t, s) && Grows(s, u)
    ensures Sound(t, u)
  {
    forall n | n in t.read
      ensures Exists(u.plugins, n, t.read[n])
      ensures t.Admits(n) <==> Binds(t.jf, u.plugins[n][t.read[n]]) && !Refused(u.records, n, t.read[n])
    {
      assert Exists(s.plugins, n, t.read[n]);
    }
  }

  lemma EditKeepsVersions(s: State, name: string, spec: Spec)
    requires Inv(s) && Enabled(s, Edit(name, spec))
    ensures
      var u := Take(s, Edit(name, spec));
      PluginsKept(u) && RecordsKept(u) && VerdictsKept(u) && Grows(s, u)
  {
    var u := Take(s, Edit(name, spec));
    var last := |s.plugins[name]| - 1;
    NoRecordBetween(s.records, name, last, last + 1);
    assert Exists(s.plugins, name, last);
    forall m, i: nat | Exists(u.plugins, m, i)
      ensures Blocked(u.plugins[m][i].status) <==> Refused(u.records, m, i)
    {
      assert (m == name && i == last + 1) || Exists(s.plugins, m, i);
    }
  }

  lemma EditKeeps(s: State, name: string, spec: Spec)
    requires Inv(s) && Enabled(s, Edit(name, spec))
    ensures Inv(Take(s, Edit(name, spec))) && Grows(s, Take(s, Edit(name, spec)))
  {
    EditKeepsVersions(s, name, spec);
    forall t | t in s.templates
      ensures Sound(t, Take(s, Edit(name, spec)))
    {
      SoundStays(t, s, Take(s, Edit(name, spec)));
    }
  }

  lemma CreateKeeps(s: State, p: GatedPlugin)
    requires Inv(s) && Enabled(s, Create(p))
    ensures Inv(Take(s, Create(p))) && Grows(s, Take(s, Create(p)))
  {
    var u := Take(s, Create(p));
    NoRecordOf(s.records, p.name, 0);
    forall t | t in s.templates
      ensures Sound(t, u)
    {
      SoundStays(t, s, u);
    }
  }

  lemma {:induction false} NoRecordOf(records: seq<Record>, name: string, v: nat)
    requires forall r :: r in records ==> r.name != name
    ensures LastRecord(records, name, v).None?
  {
    if records != [] {
      assert records[|records| - 1] in records;
      NoRecordOf(records[..|records| - 1], name, v);
    }
  }

  lemma WriteKeeps(s: State, pid: nat, deployments: map<string, Replicas>)
    requires Inv(s) && Enabled(s, Write(pid, deployments))
    ensures Inv(Take(s, Write(pid, deployments))) && Grows(s, Take(s, Write(pid, deployments)))
  {
    var u := Take(s, Write(pid, deployments));
    WriteKeepsVersions(s, pid, deployments);
    forall t | t in s.templates
      ensures Sound(t, u)
    {
      SoundStays(t, s, u);
    }
  }

  lemma WriteGrows(s: State, pid: nat, deployments: map<string, Replicas>)
    requires Inv(s) && Enabled(s, Write(pid, deployments))
    ensures Grows(s, Take(s, Write(pid, deployments)))
  {
    var u := Take(s, Write(pid, deployments));
    assert u.records != s.records ==> u.records[..|u.records| - 1] == s.records;
  }

  lemma WriteKeepsVersions(s: State, pid: nat, deployments: map<string, Replicas>)
    requires Inv(s) && Enabled(s, Write(pid, deployments))
    ensures
      var u := Take(s, Write(pid, deployments));
      PluginsKept(u) && RecordsKept(u) && VerdictsKept(u) && Grows(s, u)
  {
    var u := Take(s, Write(pid, deployments));
    var pass := s.passes[pid];
    var n := |s.plugins[pass.name]|;
    if pass.seen == n - 1 {
      var p := s.plugins[pass.name][pass.seen];
      var ok := Accepts(p.spec.targetAbi, pass.chosen);
      RecordedBlocksIff(p.status, p.spec, ok, pass.chosen.Some?, deployments);
      assert u.records[..|u.records| - 1] == s.records;
      WriteGrows(s, pid, deployments);
      forall m, i: nat | Exists(u.plugins, m, i)
        ensures Blocked(u.plugins[m][i].status) <==> Refused(u.records, m, i)
      {
        if m == pass.name && i == n {
          assert LastRecord(u.records, m, i) == Some(Record(m, n, p.spec, pass.chosen));
        } else {
          assert Exists(s.plugins, m, i);
        }
      }
    }
  }

  lemma InjectKeeps(s: State, jf: GatedInstance, order: seq<string>, read: map<string, nat>)
    requires Inv(s) && Enabled(s, Inject(jf, order, read))
    ensures Inv(Take(s, Inject(jf, order, read))) && Grows(s, Take(s, Inject(jf, order, read)))
  {
    var u := Take(s, Inject(jf, order, read));
    var listed := Listed(s, order, read);
    AdmittedMeaning(jf, listed);
    var made := Template(jf, read, Healthy(Bound(jf, listed)));
    forall n | n in read
      ensures made.Admits(n) <==> Binds(jf, s.plugins[n][read[n]]) && !Refused(s.records, n, read[n])
    {
      var p := s.plugins[n][read[n]];
      var i :| 0 <= i < |order| && order[i] == n;
      assert listed[i] == p;
      forall q | q in listed && q.name == n
        ensures q == p
      {
        var j :| 0 <= j < |listed| && listed[j] == q;
        assert order[j] in order && q.name == order[j];
      }
    }
    forall t | t in s.templates
      ensures Sound(t, u)
    {
      SoundStays(t, s, u);
    }
  }

  lemma StepKeeps(s: State, step: Step)
    requires Inv(s) && Enabled(s, step)
    ensures Inv(Take(s, step)) && Grows(s, Take(s, step))
  {
    match step
    case Create(p) => CreateKeeps(s, p);
    case Edit(name, spec) => EditKeeps(s, name, spec);
    case Write(pid, deployments) => WriteKeeps(s, pid, deployments);
    case Inject(jf, order, read) => InjectKeeps(s, jf, order, read);
    case _ =>
      forall t | t in s.templates
        ensures Sound(t, Take(s, step))
      {
        SoundStays(t, s, Take(s, step));
      }
  }

  lemma {:induction false} RunKeeps(s: State, steps: seq<Step>)
    requires Inv(s) && Legal(s, steps)
    ensures Inv(Exec(s, steps))
    decreases steps
  {
    if steps != [] {
      StepKeeps(s, steps[0]);
      RunKeeps(Take(s, steps[0]), steps[1..]);
    }
  }

  /**
   The gate, over every run from nothing: of the plugins a template pass read, it lets in exactly those
   that bind to its instance and whose latest recorded check, as of the version read, did not refuse.
   */
  lemma Gate(steps: seq<Step>)
    requires Legal(INITIAL, steps)
    ensures
      var s := Exec(INITIAL, steps);
      forall t, n :: t in s.templates && n in t.read ==>
        Exists(s.plugins, n, t.read[n])
        && var p := s.plugins[n][t.read[n]];
        t.Admits(n) <==>
          && p.namespace == t.jf.namespace
          && (p.spec.ref == Some(t.jf.name) || (t.jf.selector.Selecting? && t.jf.selector.matches(p.spec.labels)))
          && !Refused(s.records, n, t.read[n])
  {
    RunKeeps(INITIAL, steps);
  }

  lemma {:induction false} LatestIs(records: seq<Record>, k: nat, version: nat)
    requires k < |records| && records[k].version <= version
    requires forall j :: k < j < |records| && records[j].name == records[k].name ==> records[j].version > version
    ensures LastRecord(records, records[k].name, version) == Some(records[k])
  {
    if k < |records| - 1 {
      LatestIs(records[..|records| - 1], k, version);
    }
  }

  /**
   A refusal stands until it is revised: once a pass has recorded that the target is above the chosen
   server (or that there is none to compare), no template made from that version or a later one lets
   the plugin in, up to the next status write.
   */
  lemma RefusalStands(steps: seq<Step>, k: nat, t: Template)
    requires Legal(INITIAL, steps)
    requires k < |Exec(INITIAL, steps).records| && Exec(INITIAL, steps).records[k].Refuses()
    requires t in Exec(INITIAL, steps).templates
    ensures
      var records := Exec(INITIAL, steps).records;
      var n := records[k].name;
      n in t.read && records[k].version <= t.read[n]
      && (forall j :: k < j < |records| && records[j].name == n ==> records[j].version > t.read[n])
      ==> !t.Admits(n)
  {
    var s := Exec(INITIAL, steps);
    var n := s.records[k].name;
    Gate(steps);
    if n in t.read && s.records[k].version <= t.read[n]
       && (forall j :: k < j < |s.records| && s.records[j].name == n ==> s.records[j].version > t.read[n])
    {
      LatestIs(s.records, k, t.read[n]);
      assert Refused(s.records, n, t.read[n]);
    }
  }

  // ---------- what one check covers ----------

  /**
   A plugin is checked against one instance but enters every instance it binds to. Passing the check
   against `chosen` promises that `other` runs the plugin too, whatever its target, if and only if
   `other` runs a server at least as new.
   */
  lemma CheckCoversIff(chosen: GatedInstance, other: GatedInstance)
    ensures
      (forall target :: Runs(target, chosen) ==> Runs(target, other))
      <==> AtMost(ServerVersion(chosen.image), ServerVersion(other.image))
  {
    var c, o := ServerVersion(chosen.image), ServerVersion(other.image);
    ServerVersionParses(chosen.image);
    ServerVersionParses(other.image);
    VersionPreorder(c, c, o);
    if AtMost(c, o) {
      forall target | Runs(target, chosen)
        ensures Runs(target, other)
      {
        if target != "" {
          VersionPreorder(target, c, o);
        }
      }
    } else {
      EmptyDoesNotParse();
      assert Runs(c, chosen) && !Runs(c, other);
    }
  }

  /**
   So the gate can let a plugin into a server too old for it: a plugin that names one instance and
   carries the labels another selects is checked against the first only.
   */
  lemma OtherInstanceUnchecked(chosen: GatedInstance, other: GatedInstance, p: GatedPlugin)
    returns (steps: seq<Step>, t: Template)
    requires p.status == NO_STATUS && p.namespace == chosen.namespace == other.namespace
    requires p.spec.ref == Some(chosen.name) && chosen.name != ""
    requires other.selector.Selecting? && other.selector.matches(p.spec.labels)
    requires Runs(p.spec.targetAbi, chosen) && !Runs(p.spec.targetAbi, other)
    ensures Legal(INITIAL, steps)
    ensures t in Exec(INITIAL, steps).templates && t.jf == other && t.Admits(p.name)
  {
    var s := CheckedOnce(p, chosen);
    var inject := Inject(other, [p.name], map[p.name := 1]);
    t := AcceptedIsAdmitted(s, other, p.name);
    FourSteps(INITIAL, Create(p), Begin(0, p.name, 0, Some(chosen)), Write(0, map[]), inject);
    steps := [Create(p), Begin(0, p.name, 0, Some(chosen)), Write(0, map[]), inject];
  }

  /** Two images that meet the conditions: a plugin for version 11, and a server without a tag, taken for 10.9. */
  lemma OlderServerExists() returns (target: string, newer: string, older: string)
    ensures forall jf: GatedInstance :: jf.image == newer ==> Runs(target, jf)
    ensures forall jf: GatedInstance :: jf.image == older ==> !Runs(target, jf)
  {
    target, older := "11", "jellyfin";
    newer := older + ":" + target;
    NewerThanDefault(target, older);
  }

  lemma NewerThanDefault(target: string, repo: string)
    requires |target| == 2 && AllDigits(target) && target[0] >= '1' && target[1] >= '1'
    requires '@' !in repo && '/' !in repo && ':' !in repo
    ensures AtMost(target, ServerVersion(repo + ":" + target)) && !AtMost(target, ServerVersion(repo))
  {
    ImageTells(repo, target);
    UntaggedTells(repo);
    var v := OneComponent(target);
    var w := DefaultVersion();
    Above(target, DEFAULT_SERVER_VERSION, v, w);
  }

  lemma DefaultVersion() returns (w: Version)
    ensures Denotes(DEFAULT_SERVER_VERSION, w) && w[0] == 10
  {
    w := [10, 9, 0, 0];
    DefaultParses();
  }

  lemma Above(s: string, t: string, v: Version, w: Version)
    requires Denotes(s, v) && Denotes(t, w) && v[0] > w[0]
    ensures AtMost(s, s) && !AtMost(s, t)
  {
    forall a, b | Denotes(s, a) && Denotes(t, b)
      ensures a == v && b == w
    {
      DenotesOne(s, a, v);
      DenotesOne(t, b, w);
    }
    OrderMeaning(v, v, 0);
  }

  lemma OnePart(s: string, n: nat)
    requires s != "" && TrimSpace(s) == s && SplitDots(s, "") == [s] && Component(s) == Some(n)
    ensures Denotes(s, [n, 0, 0, 0])
  {
  }

  lemma OneComponent(s: string) returns (v: Version)
    requires |s| == 2 && AllDigits(s)
    ensures Denotes(s, v) && v[0] == 10 * (s[0] as int - '0' as int) + (s[1] as int - '0' as int)
  {
    SplitLast(s, "");
    assert "" + s == s;
    TwoDigits(s);
    var n := 10 * (s[0] as int - '0' as int) + (s[1] as int - '0' as int);
    v := [n, 0, 0, 0];
    OnePart(s, n);
  }

  lemma {:induction false} NoMark(s: string)
    requires AllDigits(s)
    ensures UpToMark(s) == s
  {
    if s != [] {
      NoMark(s[1..]);
    }
  }

  /** A tag that is a plain number is the version. */
  lemma ImageTells(repo: string, tag: string)
    requires '@' !in repo && |tag| == 2 && AllDigits(tag)
    ensures ServerVersion(repo + ":" + tag) == tag
  {
    assert '@' !in tag && '/' !in tag && ':' !in tag;
    TagFound(repo, tag, "");
    assert repo + ":" + tag + "" == repo + ":" + tag;
    NoMark(tag);
    DigitsParse(tag);
  }

  lemma DigitsParse(s: string)
    requires |s| == 2 && AllDigits(s)
    ensures Parses(s)
  {
    var v := OneComponent(s);
  }

  lemma NoTagSays(image: string)
    requires ImageTag(image) == ""
    ensures ServerVersion(image) == DEFAULT_SERVER_VERSION
  {
    EmptyDoesNotParse();
    assert UpToMark("") == "";
    TaggedSays(image, "");
  }

  /** Without a tag the default version is taken. */
  lemma UntaggedTells(image: string)
    requires '@' !in image && '/' !in image && ':' !in image
    ensures ServerVersion(image) == DEFAULT_SERVER_VERSION
  {
    Untagged(image);
    NoTagSays(image);
  }

  /** Version 1 of a plugin, written by a pass that accepted it, enters whatever instance it binds to. */
  lemma AcceptedIsAdmitted(s: State, jf: GatedInstance, name: string) returns (t: Template)
    requires Inv(s) && Exists(s.plugins, name, 1) && Binds(jf, s.plugins[name][1])
    requires |s.records| == 1 && s.records[0].name == name && s.records[0].version == 1 && !s.records[0].Refuses()
    ensures Enabled(s, Inject(jf, [name], map[name := 1]))
    ensures t in Take(s, Inject(jf, [name], map[name := 1])).templates && t.jf == jf && t.Admits(name)
  {
    var inject := Inject(jf, [name], map[name := 1]);
    assert Enabled(s, inject);
    StepKeeps(s, inject);
    var end := Take(s, inject);
    t := end.templates[|end.templates| - 1];
    LatestIs(end.records, 0, 1);
    assert Sound(t, end) && name in t.read;
  }

  lemma CheckedOnce(p: GatedPlugin, chosen: GatedInstance) returns (s: State)
    requires p.status == NO_STATUS && Candidate(p, chosen)
    ensures Enabled(INITIAL, Create(p))
    ensures
      var s1 := Take(INITIAL, Create(p));
      Enabled(s1, Begin(0, p.name, 0, Some(chosen)))
      && (var s2 := Take(s1, Begin(0, p.name, 0, Some(chosen)));
          Enabled(s2, Write(0, map[])) && s == Take(s2, Write(0, map[])))
    ensures p.name in s.plugins && |s.plugins[p.name]| == 2 && s.plugins[p.name][1].spec == p.spec
    ensures s.plugins[p.name][1].namespace == p.namespace && Inv(s)
    ensures s.records == [Record(p.name, 1, p.spec, Some(chosen))] && s.templates == []
  {
    var s1 := Take(INITIAL, Create(p));
    assert s1.plugins[p.name] == [p];
    var s2 := Take(s1, Begin(0, p.name, 0, Some(chosen)));
    s := Take(s2, Write(0, map[]));
    StepKeeps(INITIAL, Create(p));
    StepKeeps(s1, Begin(0, p.name, 0, Some(chosen)));
    StepKeeps(s2, Write(0, map[]));
  }

  lemma FourSteps(s: State, a: Step, b: Step, c: Step, d: Step)
    requires Enabled(s, a) && Enabled(Take(s, a), b) && Enabled(Take(Take(s, a), b), c)
    requires Enabled(Take(Take(Take(s, a), b), c), d)
    ensures Legal(s, [a, b, c, d]) && Exec(s, [a, b, c, d]) == Take(Take(Take(Take(s, a), b), c), d)
  {
    assert [a, b, c, d][1..] == [b, c, d] && [b, c, d][1..] == [c, d] && [c, d][1..] == [d] && [d][1..] == [];
    var s2 := Take(Take(s, a), b);
    var s4 := Take(Take(s2, c), d);
    assert Legal(s4, []) && Exec(s4, []) == s4;
    assert Legal(Take(s2, c), [d]) && Exec(Take(s2, c), [d]) == Exec(s4, []);
    assert Legal(s2, [c, d]) && Exec(s2, [c, d]) == Exec(Take(s2, c), [d]);
    assert Legal(Take(s, a), [b, c, d]);
  }
}
