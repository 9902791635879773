/** Auto-mounting the instance's media folders into a companion workload. */
module WorkloadMedia {
  import opened Common
  import opened InstanceSpec

  datatype Selection = Selection(mode: string, includes: seq<string>, readWrite: seq<string>)

  function ModeOf(sel: Option<Selection>): string {
    if sel.Some? && sel.value.mode != "" then sel.value.mode else "All"
  }

  predicate Selected(sel: Option<Selection>, mf: MediaFolder) {
    var mode := ModeOf(sel);
    mode != "None" && (mode != "Selected" || (sel.Some? && mf.name in sel.value.includes))
  }

  predicate ReadWrite(sel: Option<Selection>, mf: MediaFolder) {
    sel.Some? && mf.name in sel.value.readWrite
  }

  /** The folder's volume and mount as the workload gets them. */
  function WorkVolume(jf: Instance, sel: Option<Selection>, mf: MediaFolder, nm: Naming): Volume {
    var v := MediaVolume(jf, mf, nm);
    v.(source := v.source.(readOnly := !ReadWrite(sel, mf)))
  }

  function WorkMount(jf: Instance, sel: Option<Selection>, mf: MediaFolder, nm: Naming): Mount {
    MediaMount(jf, mf, nm).(readOnly := !ReadWrite(sel, mf))
  }

  /** The folder clashes with a volume name or a mount path of these lists. */
  ghost predicate Clashes(jf: Instance, mf: MediaFolder, nm: Naming, volumes: seq<Volume>, mounts: seq<Mount>) {
    || (exists v :: v in volumes && v.name == MediaVolume(jf, mf, nm).name)
    || (exists m :: m in mounts && m.path == mf.mountPath)
  }

  /** Two folders want the same volume name or the same path. */
  predicate Rivals(jf: Instance, mf: MediaFolder, other: MediaFolder, nm: Naming) {
    MediaVolume(jf, mf, nm).name == MediaVolume(jf, other, nm).name || mf.mountPath == other.mountPath
  }

  /** Folder `i` is selected and free of clashes with hand-declared entries and with chosen folders before it. */
  ghost predicate Due(jf: Instance, sel: Option<Selection>, volumes: seq<Volume>, mounts: seq<Mount>, nm: Naming,
                      i: nat, chosen: seq<nat>)
    requires i < |jf.storage.media|
  {
    var media := jf.storage.media;
    && Selected(sel, media[i]) && !Clashes(jf, media[i], nm, volumes, mounts)
    && forall j :: j in chosen && j < i ==> !Rivals(jf, media[i], media[j], nm)
  }

  /**
   The greedy choice among the first `n` folders, as positions in rising order: a folder is taken
   exactly when it is selected, clashes with nothing declared by hand, and no folder taken before it is
   its rival.
   */
  ghost predicate Greedy(jf: Instance, sel: Option<Selection>, volumes: seq<Volume>, mounts: seq<Mount>, nm: Naming,
                         n: nat, chosen: seq<nat>)
    requires n <= |jf.storage.media|
  {
    && Rising(chosen)
    && (forall a :: 0 <= a < |chosen| ==> chosen[a] < n)
    && forall i :: 0 <= i < n ==> (i in chosen <==> Due(jf, sel, volumes, mounts, nm, i, chosen))
  }

  /** The lists with the chosen folders appended in order. */
  ghost predicate Extends(jf: Instance, sel: Option<Selection>, volumes: seq<Volume>, mounts: seq<Mount>, nm: Naming,
                          chosen: seq<nat>, volumes': seq<Volume>, mounts': seq<Mount>)
  {
    var media := jf.storage.media;
    && |volumes'| == |volumes| + |chosen| && |mounts'| == |mounts| + |chosen|
    && volumes <= volumes' && mounts <= mounts'
    && forall a :: 0 <= a < |chosen| ==>
         && chosen[a] < |media|
         && volumes'[|volumes| + a] == WorkVolume(jf, sel, media[chosen[a]], nm)
         && mounts'[|mounts| + a] == WorkMount(jf, sel, media[chosen[a]], nm)
  }

  method TakenNames(volumes: seq<Volume>) returns (have: set<string>)
    ensures forall n :: n in have <==> exists v :: v in volumes && v.name == n
  {
    have := {};
    for i := 0 to |volumes|
      invariant forall n :: n in have <==> exists j :: 0 <= j < i && volumes[j].name == n
    {
      have := have + {volumes[i].name};
    }
  }

  method TakenPaths(mounts: seq<Mount>) returns (have: set<string>)
    ensures forall p :: p in have <==> exists m :: m in mounts && m.path == p
  {
    have := {};
    for i := 0 to |mounts|
      invariant forall p :: p in have <==> exists j :: 0 <= j < i && mounts[j].path == p
    {
      have := have + {mounts[i].path};
    }
  }

  /** The lookup tables tell clashes with hand-declared entries and with folders already taken. */
  ghost predicate Tells(haveVol: set<string>, havePath: set<string>, jf: Instance, volumes: seq<Volume>, mounts: seq<Mount>,
                        nm: Naming, chosen: seq<nat>)
    requires forall j :: j in chosen ==> j < |jf.storage.media|
  {
    forall mf :: MediaVolume(jf, mf, nm).name in haveVol || mf.mountPath in havePath <==>
      Clashes(jf, mf, nm, volumes, mounts) || exists j :: j in chosen && Rivals(jf, mf, jf.storage.media[j], nm)
  }

  lemma TellsMore(haveVol: set<string>, havePath: set<string>, jf: Instance, volumes: seq<Volume>, mounts: seq<Mount>,
                  nm: Naming, chosen: seq<nat>, i: nat)
    requires i < |jf.storage.media| && forall j :: j in chosen ==> j < |jf.storage.media|
    requires Tells(haveVol, havePath, jf, volumes, mounts, nm, chosen)
    ensures forall j :: j in chosen + [i] ==> j < |jf.storage.media|
    ensures Tells(haveVol + {MediaVolume(jf, jf.storage.media[i], nm).name}, havePath + {jf.storage.media[i].mountPath},
                  jf, volumes, mounts, nm, chosen + [i])
  {
    assert forall j :: j in chosen + [i] <==> j in chosen || j == i;
  }

  lemma ExtendsMore(jf: Instance, sel: Option<Selection>, volumes: seq<Volume>, mounts: seq<Mount>, nm: Naming,
                    chosen: seq<nat>, volumes': seq<Volume>, mounts': seq<Mount>, i: nat)
    requires i < |jf.storage.media| && Extends(jf, sel, volumes, mounts, nm, chosen, volumes', mounts')
    ensures
      var mf := jf.storage.media[i];
      Extends(jf, sel, volumes, mounts, nm, chosen + [i], volumes' + [WorkVolume(jf, sel, mf, nm)], mounts' + [WorkMount(jf, sel, mf, nm)])
  {
  }

  method AppendInstanceMedia(bound: Option<Instance>, sel: Option<Selection>, volumes: seq<Volume>, mounts: seq<Mount>, nm: Naming)
    returns (volumes': seq<Volume>, mounts': seq<Mount>, ghost chosen: seq<nat>)
    ensures bound.None? ==> volumes' == volumes && mounts' == mounts
    ensures bound.Some? ==> Greedy(bound.value, sel, volumes, mounts, nm, |bound.value.storage.media|, chosen)
    ensures bound.Some? ==> Extends(bound.value, sel, volumes, mounts, nm, chosen, volumes', mounts')
  {
    volumes', mounts', chosen := volumes, mounts, [];
    if bound.None? { return; }
    var jf := bound.value;
    var media := jf.storage.media;
    if ModeOf(sel) == "None" { return; }
    var haveVol := TakenNames(volumes);
    var havePath := TakenPaths(mounts);
    for i := 0 to |media|
      invariant Greedy(jf, sel, volumes, mounts, nm, i, chosen)
      invariant forall j :: j in chosen ==> j < |media|
      invariant Tells(haveVol, havePath, jf, volumes, mounts, nm, chosen)
      invariant Extends(jf, sel, volumes, mounts, nm, chosen, volumes', mounts')
    {
      var mf := media[i];
      if ModeOf(sel) == "Selected" && !(sel.Some? && mf.name in sel.value.includes) {
        GreedySkips(jf, sel, volumes, mounts, nm, i, chosen);
        continue;
      }
      var name := MediaVolume(jf, mf, nm).name;
      if name in haveVol || mf.mountPath in havePath {
        GreedySkips(jf, sel, volumes, mounts, nm, i, chosen);
        continue;
      }
      GreedyTakes(jf, sel, volumes, mounts, nm, i, chosen);
      TellsMore(haveVol, havePath, jf, volumes, mounts, nm, chosen, i);
      ExtendsMore(jf, sel, volumes, mounts, nm, chosen, volumes', mounts', i);
      volumes' := volumes' + [WorkVolume(jf, sel, mf, nm)];
      mounts' := mounts' + [WorkMount(jf, sel, mf, nm)];
      ghost var taken: nat := i;
      chosen := chosen + [taken];
      haveVol := haveVol + {name};
      havePath := havePath + {mf.mountPath};
    }
  }

  lemma GreedySkips(jf: Instance, sel: Option<Selection>, volumes: seq<Volume>, mounts: seq<Mount>, nm: Naming, n: nat, chosen: seq<nat>)
    requires n < |jf.storage.media| && Greedy(jf, sel, volumes, mounts, nm, n, chosen)
    requires !Selected(sel, jf.storage.media[n]) || Clashes(jf, jf.storage.media[n], nm, volumes, mounts)
      || exists j :: j in chosen && Rivals(jf, jf.storage.media[n], jf.storage.media[j], nm)
    ensures Greedy(jf, sel, volumes, mounts, nm, n + 1, chosen)
  {
    assert n !in chosen;
  }

  lemma GreedyTakes(jf: Instance, sel: Option<Selection>, volumes: seq<Volume>, mounts: seq<Mount>, nm: Naming, n: nat, chosen: seq<nat>)
    requires n < |jf.storage.media| && Greedy(jf, sel, volumes, mounts, nm, n, chosen)
    requires Selected(sel, jf.storage.media[n]) && !Clashes(jf, jf.storage.media[n], nm, volumes, mounts)
    requires forall j :: j in chosen ==> !Rivals(jf, jf.storage.media[n], jf.storage.media[j], nm)
    ensures Greedy(jf, sel, volumes, mounts, nm, n + 1, chosen + [n])
  {
    assert forall j :: j in chosen + [n] <==> j in chosen || j == n;
  }

  ghost predicate Rising(a: seq<nat>) {
    forall i, j :: 0 <= i < j < |a| ==> a[i] < a[j]
  }

  /** `a` is no longer than `b` and cannot run ahead of it. */
  lemma RisingPrefix(a: seq<nat>, b: seq<nat>, k: nat)
    requires Rising(a) && Rising(b) && k < |a| && k <= |b| && a[..k] == b[..k]
    requires forall i :: i in a ==> i in b
    ensures k < |b| && b[k] <= a[k]
  {
    assert a[k] in b;
    var m :| 0 <= m < |b| && b[m] == a[k];
    assert forall j :: 0 <= j < k ==> a[..k][j] == a[j] && b[..k][j] == b[j];
  }

  lemma RisingIsItsMembers(a: seq<nat>, b: seq<nat>)
    requires Rising(a) && Rising(b) && forall i :: i in a <==> i in b
    ensures a == b
  {
    for k := 0 to |a|
      invariant k <= |b| && a[..k] == b[..k]
    {
      RisingPrefix(a, b, k);
      RisingPrefix(b, a, k);
      assert a[..k + 1] == a[..k] + [a[k]] && b[..k + 1] == b[..k] + [b[k]];
    }
    if |a| < |b| {
      RisingPrefix(b, a, |a|);
      assert false;
    }
    assert a == a[..|a|] && b == b[..|a|];
  }

  /** Two greedy choices that agree below `k` agree at `k`. */
  lemma AgreeAt(jf: Instance, sel: Option<Selection>, volumes: seq<Volume>, mounts: seq<Mount>, nm: Naming,
                n: nat, a: seq<nat>, b: seq<nat>, k: nat)
    requires n <= |jf.storage.media| && Greedy(jf, sel, volumes, mounts, nm, n, a) && Greedy(jf, sel, volumes, mounts, nm, n, b)
    requires k < n && forall i :: 0 <= i < k ==> (i in a <==> i in b)
    ensures k in a <==> k in b
  {
  }

  /** The greedy choice is the only one of its kind. */
  lemma GreedyUnique(jf: Instance, sel: Option<Selection>, volumes: seq<Volume>, mounts: seq<Mount>, nm: Naming,
                     n: nat, a: seq<nat>, b: seq<nat>)
    requires n <= |jf.storage.media| && Greedy(jf, sel, volumes, mounts, nm, n, a) && Greedy(jf, sel, volumes, mounts, nm, n, b)
    ensures a == b
  {
    for k := 0 to n
      invariant forall i :: 0 <= i < k ==> (i in a <==> i in b)
    {
      AgreeAt(jf, sel, volumes, mounts, nm, n, a, b, k);
    }
    RisingIsItsMembers(a, b);
  }

  predicate VolumeReadOnly(v: Volume) {
    match v.source
    case ClaimSource(_, ro) => ro
    case NfsVolume(_, _, ro) => ro
    case _ => true
  }

  /** The mount is of the volume, at the folder's path, and both are read-only unless the folder is listed read-write. */
  predicate MountedFor(jf: Instance, sel: Option<Selection>, mf: MediaFolder, nm: Naming, v: Volume, m: Mount) {
    && m.volume == v.name && m.path == mf.mountPath && m.subPath == ""
    && m.readOnly == VolumeReadOnly(v) == !(sel.Some? && mf.name in sel.value.readWrite)
    && SameButFlag(v, MediaVolume(jf, mf, nm))
  }

  /** The same name, and the same claim or export. */
  predicate SameButFlag(v: Volume, w: Volume) {
    && v.name == w.name
    && match (v.source, w.source)
       case (ClaimSource(c, _), ClaimSource(d, _)) => c == d
       case (NfsVolume(s, p, _), NfsVolume(t, q, _)) => s == t && p == q
       case _ => false
  }

  /** The selection asks for the folder: all of them by default, those included if it says so, or none. */
  predicate AsksFor(sel: Option<Selection>, mf: MediaFolder) {
    sel.Some? ==> sel.value.mode != "None" && (sel.value.mode == "Selected" ==> mf.name in sel.value.includes)
  }

  /**
   What the workload ends up with: hand-declared entries first and unchanged, no added volume name or
   path repeats an earlier one, an added folder is read-only exactly when it is not listed read-write,
   and every selected folder left out clashes with a hand-declared entry or a folder added before it.
   */
  lemma AddedMedia(jf: Instance, sel: Option<Selection>, volumes: seq<Volume>, mounts: seq<Mount>, nm: Naming,
                   chosen: seq<nat>, volumes': seq<Volume>, mounts': seq<Mount>)
    requires Greedy(jf, sel, volumes, mounts, nm, |jf.storage.media|, chosen)
    requires Extends(jf, sel, volumes, mounts, nm, chosen, volumes', mounts')
    ensures volumes <= volumes' && mounts <= mounts'
    ensures forall i, j :: 0 <= i < j < |volumes'| && j >= |volumes| ==> volumes'[i].name != volumes'[j].name
    ensures forall i, j :: 0 <= i < j < |mounts'| && j >= |mounts| ==> mounts'[i].path != mounts'[j].path
    ensures forall a :: 0 <= a < |chosen| ==>
      && AsksFor(sel, jf.storage.media[chosen[a]])
      && MountedFor(jf, sel, jf.storage.media[chosen[a]], nm, volumes'[|volumes| + a], mounts'[|mounts| + a])
    ensures forall i :: 0 <= i < |jf.storage.media| && AsksFor(sel, jf.storage.media[i]) && i !in chosen ==>
      Clashes(jf, jf.storage.media[i], nm, volumes, mounts) || exists j :: j in chosen && j < i && Rivals(jf, jf.storage.media[i], jf.storage.media[j], nm)
  {
    var media := jf.storage.media;
    forall a | 0 <= a < |chosen|
      ensures AsksFor(sel, media[chosen[a]])
      ensures MountedFor(jf, sel, media[chosen[a]], nm, volumes'[|volumes| + a], mounts'[|mounts| + a])
    {
      assert chosen[a] in chosen && Due(jf, sel, volumes, mounts, nm, chosen[a], chosen);
      assert volumes'[|volumes| + a] == WorkVolume(jf, sel, media[chosen[a]], nm);
    }
    forall i, j | 0 <= i < j < |volumes'| && j >= |volumes|
      ensures volumes'[i].name != volumes'[j].name
    {
      var b := chosen[j - |volumes|];
      assert volumes'[|volumes| + (j - |volumes|)] == WorkVolume(jf, sel, media[b], nm);
      assert b in chosen;
      if i < |volumes| {
        assert volumes'[i] in volumes;
      } else {
        var a := chosen[i - |volumes|];
        assert volumes'[|volumes| + (i - |volumes|)] == WorkVolume(jf, sel, media[a], nm);
        assert a in chosen && a < b;
      }
    }
    forall i, j | 0 <= i < j < |mounts'| && j >= |mounts|
      ensures mounts'[i].path != mounts'[j].path
    {
      var b := chosen[j - |mounts|];
      assert mounts'[|mounts| + (j - |mounts|)] == WorkMount(jf, sel, media[b], nm);
      assert b in chosen;
      if i < |mounts| {
        assert mounts'[i] in mounts;
      } else {
        var a := chosen[i - |mounts|];
        assert mounts'[|mounts| + (i - |mounts|)] == WorkMount(jf, sel, media[a], nm);
        assert a in chosen && a < b;
      }
    }
  }
}
