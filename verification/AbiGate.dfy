/**
 The ABI gate, end to end: the plugin controller checks a plugin's target version against one server
 and records the verdict in the plugin's status; the instance controller, running on its own schedule
 and reading possibly stale versions, leaves out every plugin whose status records a refusal.
 */
module AbiGate {
  import opened Common
  import opened Ordering
  import opened Versions

  type Labels = map<string, string>

  /** A label selector: absent, impossible to parse, or a test on labels. */
  datatype Selector = NoSelector | InvalidSelector | Selecting(matches: Labels -> bool)

  /** What the gate looks at of an instance. */
  datatype GatedInstance = GatedInstance(name: string, namespace: string, image: string, selector: Selector)

  datatype Phase = NoPhase | Pending | Failed | Loaded | WorkloadsReady

  /** The conditions of a plugin, each absent until a pass sets it. */
  datatype Conditions = Conditions(compatible: Option<bool>, injected: Option<bool>, installed: Option<bool>, workers: Option<bool>)

  /** A plugin that no pass has seen carries no conditions. */
  datatype Status = Status(phase: Phase, compatible: bool, loadedVersion: string, injected: bool, installed: bool, ready: int,
                           conditions: Conditions)

  const NO_STATUS := Status(NoPhase, false, "", false, false, 0, Conditions(None, None, None, None))

  datatype Spec = Spec(ref: Option<string>, labels: Labels, targetAbi: string, version: string, installs: bool, workloads: seq<string>)

  /** What the gate looks at of a plugin. */
  datatype GatedPlugin = GatedPlugin(name: string, namespace: string, spec: Spec, status: Status)

  const NameOf: GatedPlugin -> string := (p: GatedPlugin) => p.name

  predicate Binds(jf: GatedInstance, p: GatedPlugin) {
    p.namespace == jf.namespace
    && (p.spec.ref == Some(jf.name) || (jf.selector.Selecting? && jf.selector.matches(p.spec.labels)))
  }

  predicate Names(p: GatedPlugin) {
    p.spec.ref.Some? && p.spec.ref.value != ""
  }

  /** `Binds`, or being named outright: what makes an instance a candidate for the check. */
  predicate Candidate(p: GatedPlugin, jf: GatedInstance) {
    if Names(p) then jf.name == p.spec.ref.value && jf.namespace == p.namespace else Binds(jf, p)
  }

  /** `jf` is the first candidate listed. */
  ghost predicate IsFirst(p: GatedPlugin, instances: seq<GatedInstance>, jf: GatedInstance) {
    exists i :: 0 <= i < |instances| && instances[i] == jf && Candidate(p, instances[i])
                && (forall j :: 0 <= j < i ==> !Candidate(p, instances[j]))
  }

  /** The instance a plugin is checked against: the first candidate. `readable` is false when the read fails. */
  method BoundInstance(p: GatedPlugin, instances: seq<GatedInstance>, readable: bool) returns (chosen: Option<GatedInstance>)
    ensures chosen.Some? ==> readable && IsFirst(p, instances, chosen.value)
    ensures chosen.None? ==> !readable || forall i :: 0 <= i < |instances| ==> !Candidate(p, instances[i])
    ensures chosen.Some? ==> chosen.value.namespace == p.namespace
    ensures chosen.Some? && p.spec.ref.Some? && p.spec.ref.value != "" ==> chosen.value.name == p.spec.ref.value
    ensures chosen.Some? && p.spec.ref.None? ==> chosen.value.selector.Selecting? && chosen.value.selector.matches(p.spec.labels)
    ensures chosen.None? && readable ==> forall jf :: jf in instances && jf.namespace == p.namespace ==>
              && (p.spec.ref.Some? && p.spec.ref.value != "" ==> jf.name != p.spec.ref.value)
              && (p.spec.ref.None? && jf.selector.Selecting? ==> !jf.selector.matches(p.spec.labels))
  {
    if !readable {
      return None;
    }
    for i := 0 to |instances|
      invariant forall j :: 0 <= j < i ==> !Candidate(p, instances[j])
    {
      if Candidate(p, instances[i]) {
        return Some(instances[i]);
      }
    }
    chosen := None;
  }

  // ---------- the check ----------

  const DEFAULT_SERVER_VERSION := "10.9.0.0"

  lemma DefaultParts()
    ensures SplitDots("10.9.0.0", "") == ["10", "9", "0", "0"]
  {
    SplitAt("10", "9.0.0", "");
    SplitAt("9", "0.0", "");
    SplitAt("0", "0", "");
    SplitLast("0", "");
    assert "10.9.0.0" == "10" + "." + "9.0.0";
    assert "9.0.0" == "9" + "." + "0.0";
    assert "0.0" == "0" + "." + "0";
    assert "" + "10" == "10" && "" + "9" == "9" && "" + "0" == "0";
  }

  lemma DefaultParses()
    ensures Denotes(DEFAULT_SERVER_VERSION, [10, 9, 0, 0])
  {
    DefaultParts();
    TwoDigits("10");
    OneDigit("9");
    OneDigit("0");
    Untrimmed(DEFAULT_SERVER_VERSION, "10", "9", "0");
  }

  lemma Untrimmed(s: string, a: string, b: string, c: string)
    requires s != [] && '0' <= s[0] <= '9' && '0' <= s[|s| - 1] <= '9'
    requires SplitDots(s, "") == [a, b, c, c]
    requires Component(a) == Some(10) && Component(b) == Some(9) && Component(c) == Some(0)
    ensures Denotes(s, [10, 9, 0, 0])
  {
    var parts, v := [a, b, c, c], [10, 9, 0, 0];
    forall i | 0 <= i < 4
      ensures Component(parts[i]) == Some(v[i])
    {
      assert i == 0 || i == 1 || i == 2 || i == 3;
    }
    PartsDenote(s, parts, v);
  }

  lemma PartsDenote(s: string, parts: seq<string>, v: Version)
    requires s != [] && '0' <= s[0] <= '9' && '0' <= s[|s| - 1] <= '9'
    requires SplitDots(s, "") == parts && |parts| == 4
    requires forall i :: 0 <= i < 4 ==> Component(parts[i]) == Some(v[i])
    ensures Denotes(s, v)
  {
    assert TrimSpace(s) == s;
  }

  /** The version of an instance's server: what its image tag says, or the default. */
  ghost function ServerVersion(image: string): string {
    var tagged := TagVersion(ImageTag(image));
    if Parses(tagged) then tagged else DEFAULT_SERVER_VERSION
  }

  lemma TaggedSays(image: string, ver: string)
    requires TagVersion(ImageTag(image)) == ver
    ensures ServerVersion(image) == if Parses(ver) then ver else "10.9.0.0"
  {
  }

  /** Text free of the marks that structure a reference. */
  predicate PlainTag(s: string) {
    '@' !in s && '/' !in s && ':' !in s
  }

  /**
   The server version of an image: whatever its repository and digest, the tag up to its first dash, plus or
   underscore, without a leading v, if that is a version, and 10.9.0.0 otherwise.
   */
  lemma ImageSays(repo: string, ver: string, rest: string, digest: string)
    requires '@' !in repo && PlainTag(ver + rest) && (digest == "" || digest[0] == '@')
    requires Unmarked(ver) && Suffix(rest) && (ver == "" || ver[0] != 'v')
    ensures ServerVersion(repo + ":" + (ver + rest) + digest) == if Parses(ver) then ver else "10.9.0.0"
  {
    TagFound(repo, ver + rest, digest);
    TagSays(ver, rest);
    TaggedSays(repo + ":" + (ver + rest) + digest, ver);
  }

  lemma ImageSaysWithV(repo: string, ver: string, rest: string, digest: string)
    requires '@' !in repo && PlainTag("v" + ver + rest) && (digest == "" || digest[0] == '@')
    requires Unmarked(ver) && Suffix(rest) && (ver == "" || ver[0] != 'v')
    ensures ServerVersion(repo + ":" + ("v" + ver + rest) + digest) == if Parses(ver) then ver else "10.9.0.0"
  {
    TagFound(repo, "v" + ver + rest, digest);
    TagSays(ver, rest);
    TaggedSays(repo + ":" + ("v" + ver + rest) + digest, ver);
  }

  lemma ServerVersionParses(image: string)
    ensures Parses(ServerVersion(image))
  {
    DefaultParses();
  }

  datatype Reason = NoTargetAbi | InstanceNotFound | ParseError | Mismatch | Compatible

  /** A server at least as new as the target runs the plugin. */
  ghost predicate Runs(targetAbi: string, jf: GatedInstance) {
    targetAbi == "" || AtMost(targetAbi, ServerVersion(jf.image))
  }

  ghost predicate Accepts(targetAbi: string, chosen: Option<GatedInstance>) {
    targetAbi == "" || (chosen.Some? && Runs(targetAbi, chosen.value))
  }

  /** Ok when both texts parse; the error says whether it was the target that did not. */
  method AbiCompatible(targetAbi: string, server: string) returns (r: Result<bool, bool>)
    ensures r.Ok? <==> Parses(targetAbi) && Parses(server)
    ensures r.Ok? ==> (r.value <==> AtMost(targetAbi, server))
    ensures r.Err? ==> (r.error <==> !Parses(targetAbi))
  {
    var t := ParseVersion(targetAbi);
    if t.None? {
      return Err(true);
    }
    var s := ParseVersion(server);
    if s.None? {
      return Err(false);
    }
    var c := CompareVersions(s.value, t.value);
    OrderMeaning(s.value, t.value, 0);
    forall v, w | Denotes(targetAbi, v) && Denotes(server, w)
      ensures v == t.value && w == s.value
    {
      DenotesOne(targetAbi, v, t.value);
      DenotesOne(server, w, s.value);
    }
    r := Ok(c >= 0);
  }

  /** The verdict and its reason. A parse error always lies in the plugin's own target. */
  method ValidateAbi(targetAbi: string, chosen: Option<GatedInstance>) returns (ok: bool, reason: Reason)
    ensures ok <==> Accepts(targetAbi, chosen)
    ensures ok <==> reason.NoTargetAbi? || reason.Compatible?
    ensures reason.NoTargetAbi? <==> targetAbi == ""
    ensures reason.InstanceNotFound? <==> targetAbi != "" && chosen.None?
    ensures reason.ParseError? <==> targetAbi != "" && chosen.Some? && !Parses(targetAbi)
    ensures reason.Mismatch? <==> targetAbi != "" && chosen.Some? && Parses(targetAbi) && !Runs(targetAbi, chosen.value)
  {
    if targetAbi == "" {
      return true, NoTargetAbi;
    }
    if chosen.None? {
      return false, InstanceNotFound;
    }
    var server := ServerVersionFromImage(chosen.value.image);
    EmptyDoesNotParse();
    if server == "" {
      server := DEFAULT_SERVER_VERSION;
    }
    ServerVersionParses(chosen.value.image);
    var compatible := AbiCompatible(targetAbi, server);
    if compatible.Err? {
      return false, ParseError;
    }
    if !compatible.value {
      return false, Mismatch;
    }
    return true, Compatible;
  }

  // ---------- recording the verdict ----------

  /** A companion Deployment: the replicas asked for, if said, and those ready. */
  datatype Replicas = Replicas(wanted: Option<int>, ready: int)

  ghost function Wanted(ws: seq<string>, deployments: map<string, Replicas>): int {
    if ws == [] then 0
    else
      var w := ws[|ws| - 1];
      Wanted(ws[..|ws| - 1], deployments)
      + (if w in deployments && deployments[w].wanted.Some? then deployments[w].wanted.value else 0)
  }

  ghost function Ready(ws: seq<string>, deployments: map<string, Replicas>): int {
    if ws == [] then 0
    else
      var w := ws[|ws| - 1];
      Ready(ws[..|ws| - 1], deployments) + (if w in deployments then deployments[w].ready else 0)
  }

  ghost predicate WorkersReady(spec: Spec, deployments: map<string, Replicas>) {
    var wanted := Wanted(spec.workloads, deployments);
    spec.workloads == [] || 0 < wanted <= Ready(spec.workloads, deployments)
  }

  /** The status a pass writes over `s`. What it does not decide anew it leaves as it was. */
  ghost function Recorded(s: Status, spec: Spec, ok: bool, bound: bool, deployments: map<string, Replicas>): Status {
    var conds := s.conditions.(compatible := Some(ok));
    var checked := s.(compatible := ok, loadedVersion := spec.version, ready := Ready(spec.workloads, deployments));
    if !ok then checked.(phase := Failed, injected := false, conditions := conds.(workers := Some(false)))
    else if !bound then checked.(phase := Pending, conditions := conds.(workers := Some(false)))
    else
      var up := WorkersReady(spec, deployments);
      checked.(phase := if up then Loaded else WorkloadsReady, injected := true, installed := !spec.installs,
               conditions := conds.(injected := Some(true), workers := Some(up),
                                    installed := if spec.installs then conds.installed else Some(true)))
  }

  /** The status of a plugin being reconciled. */
  class PluginStatus {
    var phase: Phase
    var compatible: bool
    var loadedVersion: string
    var injected: bool
    var installed: bool
    var ready: int
    var conditions: Conditions

    ghost function View(): Status
      reads this
    {
      Status(phase, compatible, loadedVersion, injected, installed, ready, conditions)
    }

    method Update(spec: Spec, ok: bool, bound: bool, deployments: map<string, Replicas>)
      modifies this
      ensures View() == Recorded(old(View()), spec, ok, bound, deployments)
    {
      compatible, loadedVersion := ok, spec.version;
      conditions := conditions.(compatible := Some(ok));
      var wanted, live := 0, 0;
      for i := 0 to |spec.workloads|
        invariant wanted == Wanted(spec.workloads[..i], deployments) && live == Ready(spec.workloads[..i], deployments)
      {
        var w := spec.workloads[i];
        assert spec.workloads[..i + 1][..i] == spec.workloads[..i];
        if w in deployments {
          if deployments[w].wanted.Some? {
            wanted := wanted + deployments[w].wanted.value;
          }
          live := live + deployments[w].ready;
        }
      }
      assert spec.workloads[..|spec.workloads|] == spec.workloads;
      ready := live;
      var workersReady := spec.workloads == [] || (wanted > 0 && live >= wanted);
      if !ok {
        phase := Failed;
        injected := false;
        conditions := conditions.(workers := Some(false));
      } else if !bound {
        phase := Pending;
        conditions := conditions.(workers := Some(false));
      } else {
        injected := true;
        installed := !spec.installs;
        conditions := conditions.(injected := Some(true));
        if installed {
          conditions := conditions.(installed := Some(true));
        }
        if workersReady {
          phase := Loaded;
          conditions := conditions.(workers := Some(true));
        } else {
          phase := WorkloadsReady;
          conditions := conditions.(workers := Some(false));
        }
      }
    }
  }

  /** What a recorded status tells: it never contradicts itself, and never carries over what the pass decides. */
  lemma StatusTells(s: Status, spec: Spec, ok: bool, bound: bool, deployments: map<string, Replicas>)
    ensures
      var r := Recorded(s, spec, ok, bound, deployments);
      && r.compatible == ok && r.conditions.compatible == Some(ok) && r.loadedVersion == spec.version
      && (r.phase == Failed <==> !ok) && (r.phase == Pending <==> ok && !bound)
      && (r.phase == Loaded || r.phase == WorkloadsReady ==> r.injected && r.conditions.injected == Some(true))
      && (r.phase == Loaded <==> r.conditions.workers == Some(true)) && (r.phase != Loaded <==> r.conditions.workers == Some(false))
      && (r.phase == Loaded && spec.workloads != [] ==> r.ready >= Wanted(spec.workloads, deployments) > 0)
      && (r.phase == Failed ==> !r.injected)
      && (ok && bound && spec.installs ==> !r.installed && r.conditions.installed == s.conditions.installed)
      && (ok && bound && !spec.installs ==> r.installed && r.conditions.installed == Some(true))
      && (r.phase == Pending ==> r.injected == s.injected && r.installed == s.installed)
  {
  }

  // ---------- the gate ----------

  predicate Blocked(s: Status) {
    s.phase == Failed || s.conditions.compatible == Some(false)
  }

  ghost function Kept<T(!new)>(xs: seq<T>, keep: T -> bool): (r: seq<T>)
    ensures forall x :: x in r <==> x in xs && keep(x)
  {
    if xs == [] then []
    else Kept(xs[..|xs| - 1], keep) + (if keep(xs[|xs| - 1]) then [xs[|xs| - 1]] else [])
  }

  ghost function Bound(jf: GatedInstance, listed: seq<GatedPlugin>): seq<GatedPlugin> {
    SortBy(Kept(listed, (p: GatedPlugin) => Binds(jf, p)), NameOf)
  }

  ghost function Healthy(plugins: seq<GatedPlugin>): seq<GatedPlugin> {
    Kept(plugins, (p: GatedPlugin) => !Blocked(p.status))
  }

  method BoundPlugins(jf: GatedInstance, listed: seq<GatedPlugin>) returns (bound: seq<GatedPlugin>)
    ensures bound == Bound(jf, listed)
  {
    bound := [];
    ghost var keep := (p: GatedPlugin) => Binds(jf, p);
    for i := 0 to |listed|
      invariant bound == Kept(listed[..i], keep)
    {
      assert listed[..i + 1][..i] == listed[..i];
      if Binds(jf, listed[i]) {
        bound := bound + [listed[i]];
      }
    }
    assert listed[..|listed|] == listed;
    bound := SortBy(bound, NameOf);
  }

  method HealthyPlugins(plugins: seq<GatedPlugin>) returns (out: seq<GatedPlugin>)
    ensures out == Healthy(plugins)
  {
    out := [];
    ghost var keep := (p: GatedPlugin) => !Blocked(p.status);
    for i := 0 to |plugins|
      invariant out == Kept(plugins[..i], keep)
    {
      assert plugins[..i + 1][..i] == plugins[..i];
      if plugins[i].status.phase == Failed {
        continue;
      }
      if plugins[i].status.conditions.compatible == Some(false) {
        continue;
      }
      out := out + [plugins[i]];
    }
    assert plugins[..|plugins|] == plugins;
  }

  lemma {:induction false} KeptOrder<T(!new)>(xs: seq<T>, keep: T -> bool, key: T -> string)
    ensures SortedBy(xs, key) ==> SortedBy(Kept(xs, keep), key)
    ensures DistinctKeys(xs, key) ==> DistinctKeys(Kept(xs, keep), key)
  {
    if xs != [] {
      var init, last := xs[..|xs| - 1], xs[|xs| - 1];
      KeptOrder(init, keep, key);
      var kept := Kept(init, keep);
      forall i | 0 <= i < |kept|
        ensures SortedBy(xs, key) ==> LexLe(key(kept[i]), key(last))
        ensures DistinctKeys(xs, key) ==> key(kept[i]) != key(last)
      {
        assert kept[i] in init;
      }
    }
  }

  /**
   What enters a pod template, in name order whatever the list order: a plugin of the instance's namespace that
   names the instance or that its selector picks, and whose status records no refusal.
   */
  lemma AdmittedMeaning(jf: GatedInstance, listed: seq<GatedPlugin>)
    ensures forall p :: p in Healthy(Bound(jf, listed)) <==>
      && p in listed && p.namespace == jf.namespace
      && (p.spec.ref == Some(jf.name) || (jf.selector.Selecting? && jf.selector.matches(p.spec.labels)))
      && p.status.phase != Failed && p.status.conditions.compatible != Some(false)
    ensures forall p :: p in Healthy(Bound(jf, listed)) <==> p in listed && Binds(jf, p) && !Blocked(p.status)
    ensures SortedBy(Healthy(Bound(jf, listed)), NameOf)
  {
    var bound := Kept(listed, (p: GatedPlugin) => Binds(jf, p));
    SortByKeeps(bound, NameOf);
    SortByMembers(bound, NameOf);
    KeptOrder(Bound(jf, listed), (p: GatedPlugin) => !Blocked(p.status), NameOf);
  }

  /** A pass blocks the plugin exactly when it refuses it, whatever the status said before. */
  lemma RecordedBlocksIff(s: Status, spec: Spec, ok: bool, bound: bool, deployments: map<string, Replicas>)
    ensures Blocked(Recorded(s, spec, ok, bound, deployments)) <==> !ok
  {
  }
}
