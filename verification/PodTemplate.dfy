/**
 The pod template: base storage, media folders, web content and plugins, assembled in loops over the
 plugins sorted by name.
 */
module PodTemplate {
  import opened Common
  import opened Ordering
  import opened InstanceSpec

  datatype Image = Image(reference: string, pullPolicy: string)

  datatype InstallSpec = InstallSpec(script: string, command: seq<string>, image: Option<Image>, mounts: seq<Mount>)
  {
    predicate Inline() {
      script != "" || command != []
    }
  }

  datatype Plugin = Plugin(name: string, image: Image, imageSubPath: string, metaName: string, metaVersion: string,
                           metaSubPath: string, copies: bool, install: Option<InstallSpec>)

  function NameOf(): Plugin -> string {
    (p: Plugin) => p.name
  }

  datatype Kind = Stage | Install | Hook

  datatype InitContainer = InitContainer(kind: Kind, plugin: string, name: string, image: string, mounts: seq<Mount>)

  /** The server container's mounts, environment and command, and the pod's volumes and init containers. */
  datatype Template = Template(mounts: seq<Mount>, env: seq<(string, string)>, command: seq<string>,
                               volumes: seq<Volume>, inits: seq<InitContainer>)

  // ---------- pieces ----------

  function FolderName(p: Plugin): string {
    var name := if p.metaName == "" then "plugin" else p.metaName;
    if p.metaVersion == "" then name else name + "_" + p.metaVersion
  }

  function SubPath(p: Plugin): string {
    if p.metaSubPath != "" then p.metaSubPath else p.imageSubPath
  }

  function PluginVolume(p: Plugin, nm: Naming): Volume {
    Volume(nm.Prefix("plugin", p.name),
           ImageVolume(p.image.reference, if p.image.pullPolicy == "" then "IfNotPresent" else p.image.pullPolicy))
  }

  function PluginMount(p: Plugin, nm: Naming): Mount {
    Mount(nm.Prefix("plugin", p.name), "/config/plugins/" + FolderName(p), SubPath(p), true)
  }

  const CONFIG_MOUNT := Mount("config", "/config", "", false)

  function ServerImage(jf: Instance): string {
    if jf.image == "" then "jellyfin/jellyfin:latest" else jf.image
  }

  function StageContainer(jf: Instance, p: Plugin, nm: Naming): InitContainer {
    InitContainer(Stage, p.name, nm.Prefix("stage", p.name), ServerImage(jf),
                  [Mount(nm.Prefix("plugin", p.name), "/plugins-src/" + p.name, "", true), CONFIG_MOUNT])
  }

  function InstallImage(jf: Instance, p: Plugin): string {
    if p.install.Some? && p.install.value.image.Some? then p.install.value.image.value.reference else ServerImage(jf)
  }

  function InstallContainer(jf: Instance, p: Plugin, nm: Naming): Result<InitContainer, string>
    requires p.install.Some? && p.install.value.Inline()
  {
    var inst := p.install.value;
    if inst.script != "" && inst.command != [] then Err("install: script and command are mutually exclusive")
    else Ok(InitContainer(Install, p.name, nm.Prefix("install", p.name), InstallImage(jf, p), [CONFIG_MOUNT] + inst.mounts))
  }

  function HookContainer(jf: Instance, p: Plugin, nm: Naming): InitContainer {
    InitContainer(Hook, p.name, nm.Prefix("hook", p.name), InstallImage(jf, p),
                  [CONFIG_MOUNT] + if p.install.Some? then p.install.value.mounts else [])
  }

  // ---------- the template as a function ----------

  function WithClaim(t: Template, volume: string, claim: string, path: string): Template {
    t.(volumes := t.volumes + [Volume(volume, ClaimSource(claim, false))],
       mounts := t.mounts + [Mount(volume, path, "", false)])
  }

  ghost function Storage0(jf: Instance, nm: Naming): Template {
    var t := Template([CONFIG_MOUNT], [], [], [Volume("config", ClaimSource(ConfigClaimName(jf, nm), false))], []);
    var st := jf.storage;
    var t :=
      if st.cache.None? then t
      else
        var path := if st.cache.value.mountPath != "" then st.cache.value.mountPath else "/cache";
        WithClaim(t, "cache", CacheClaimName(jf, nm), path).(env := t.env + [("JELLYFIN_CACHE_DIR", path)]);
    if st.trickplay.None? then t
    else WithClaim(t, "trickplay", TrickplayClaimName(jf, nm),
                   if st.trickplay.value.mountPath != "" then st.trickplay.value.mountPath else "/config/data/trickplay")
  }

  ghost function WithMedia(t: Template, jf: Instance, media: seq<MediaFolder>, nm: Naming): Template {
    if media == [] then t
    else
      var mf := media[|media| - 1];
      var t := WithMedia(t, jf, media[..|media| - 1], nm);
      t.(volumes := t.volumes + [MediaVolume(jf, mf, nm)], mounts := t.mounts + [MediaMount(jf, mf, nm)])
  }

  ghost function WithWeb(t: Template, jf: Instance): Template {
    if jf.webVolume.None? then t
    else
      var web := jf.webVolume.value;
      t.(volumes := t.volumes + [Volume("jellyfin-web-content",
           ImageVolume(web.image, if web.pullPolicy == "" then "IfNotPresent" else web.pullPolicy))],
         mounts := t.mounts + [Mount("jellyfin-web-content", "/jellyfin-web", web.subPath, true)],
         command := ["/jellyfin/jellyfin"],
         env := t.env + [("JELLYFIN_WEB_DIR", "/jellyfin-web")])
  }

  ghost function InstallBlock(jf: Instance, p: Plugin, nm: Naming): Result<seq<InitContainer>, string> {
    if p.install.Some? && p.install.value.Inline() then
      var c := InstallContainer(jf, p, nm);
      if c.Ok? then Ok([c.value]) else Err(c.error)
    else Ok([])
  }

  /** A plugin's init containers: staged, then installed, then hooked. */
  ghost function Block(jf: Instance, p: Plugin, nm: Naming): Result<seq<InitContainer>, string> {
    var install :- InstallBlock(jf, p, nm);
    Ok((if p.copies then [StageContainer(jf, p, nm)] else []) + install + (if p.copies then [HookContainer(jf, p, nm)] else []))
  }

  ghost function WithPlugin(t: Template, jf: Instance, p: Plugin, nm: Naming): Result<Template, string> {
    var block :- Block(jf, p, nm);
    Ok(t.(volumes := t.volumes + [PluginVolume(p, nm)],
          mounts := if p.copies then t.mounts else t.mounts + [PluginMount(p, nm)],
          inits := t.inits + block))
  }

  ghost function WithPlugins(t: Template, jf: Instance, ps: seq<Plugin>, nm: Naming): Result<Template, string> {
    if ps == [] then Ok(t)
    else
      var t :- WithPlugins(t, jf, ps[..|ps| - 1], nm);
      WithPlugin(t, jf, ps[|ps| - 1], nm)
  }

  ghost function TemplateOf(jf: Instance, plugins: seq<Plugin>, nm: Naming): Result<Template, string> {
    WithPlugins(WithWeb(WithMedia(Storage0(jf, nm), jf, jf.storage.media, nm), jf), jf, SortBy(plugins, NameOf()), nm)
  }

  // ---------- the builder ----------

  method BuildPodTemplate(jf: Instance, plugins: seq<Plugin>, nm: Naming) returns (r: Result<Template, string>)
    ensures r == TemplateOf(jf, plugins, nm)
  {
    var sorted := SortBy(plugins, NameOf());
    var mounts := [CONFIG_MOUNT];
    var env: seq<(string, string)>, command: seq<string> := [], [];
    var volumes := [Volume("config", ClaimSource(ConfigClaimName(jf, nm), false))];
    if jf.storage.cache.Some? {
      var cachePath := "/cache";
      if jf.storage.cache.value.mountPath != "" {
        cachePath := jf.storage.cache.value.mountPath;
      }
      volumes := volumes + [Volume("cache", ClaimSource(CacheClaimName(jf, nm), false))];
      mounts := mounts + [Mount("cache", cachePath, "", false)];
      env := env + [("JELLYFIN_CACHE_DIR", cachePath)];
    }
    if jf.storage.trickplay.Some? {
      var trickplayPath := "/config/data/trickplay";
      if jf.storage.trickplay.value.mountPath != "" {
        trickplayPath := jf.storage.trickplay.value.mountPath;
      }
      volumes := volumes + [Volume("trickplay", ClaimSource(TrickplayClaimName(jf, nm), false))];
      mounts := mounts + [Mount("trickplay", trickplayPath, "", false)];
    }
    ghost var t0 := Storage0(jf, nm);
    assert Template(mounts, env, command, volumes, []) == t0;
    var media := jf.storage.media;
    for i := 0 to |media|
      invariant Template(mounts, env, command, volumes, []) == WithMedia(t0, jf, media[..i], nm)
    {
      assert media[..i + 1][..i] == media[..i];
      volumes := volumes + [MediaVolume(jf, media[i], nm)];
      mounts := mounts + [MediaMount(jf, media[i], nm)];
    }
    assert media[..|media|] == media;
    if jf.webVolume.Some? {
      var web := jf.webVolume.value;
      var pull := if web.pullPolicy == "" then "IfNotPresent" else web.pullPolicy;
      volumes := volumes + [Volume("jellyfin-web-content", ImageVolume(web.image, pull))];
      mounts := mounts + [Mount("jellyfin-web-content", "/jellyfin-web", web.subPath, true)];
      command := ["/jellyfin/jellyfin"];
      env := env + [("JELLYFIN_WEB_DIR", "/jellyfin-web")];
    }
    ghost var t1 := WithWeb(WithMedia(t0, jf, media, nm), jf);
    r := AddPlugins(Template(mounts, env, command, volumes, []), jf, sorted, nm);
  }

  method AddPlugins(t: Template, jf: Instance, sorted: seq<Plugin>, nm: Naming) returns (r: Result<Template, string>)
    ensures r == WithPlugins(t, jf, sorted, nm)
  {
    var volumes, mounts, inits := t.volumes, t.mounts, t.inits;
    for i := 0 to |sorted|
      invariant WithPlugins(t, jf, sorted[..i], nm) == Ok(t.(volumes := volumes, mounts := mounts, inits := inits))
    {
      var p := sorted[i];
      assert sorted[..i + 1][..i] == sorted[..i];
      volumes := volumes + [PluginVolume(p, nm)];
      if !p.copies {
        mounts := mounts + [PluginMount(p, nm)];
      }
      var block := PluginContainers(jf, p, nm);
      if block.Err? {
        FirstError(t, jf, sorted, i, nm);
        return Err(block.error);
      }
      inits := inits + block.value;
    }
    assert sorted[..|sorted|] == sorted;
    r := Ok(t.(volumes := volumes, mounts := mounts, inits := inits));
  }

  method PluginContainers(jf: Instance, p: Plugin, nm: Naming) returns (r: Result<seq<InitContainer>, string>)
    ensures r == Block(jf, p, nm)
  {
    var inits := [];
    ghost var install := [];
    if p.copies {
      inits := inits + [StageContainer(jf, p, nm)];
    }
    if p.install.Some? && p.install.value.Inline() {
      var c :- InstallContainer(jf, p, nm);
      inits := inits + [c];
      install := [c];
    }
    assert InstallBlock(jf, p, nm) == Ok(install);
    assert inits == (if p.copies then [StageContainer(jf, p, nm)] else []) + install;
    if p.copies {
      inits := inits + [HookContainer(jf, p, nm)];
    }
    assert inits == (if p.copies then [StageContainer(jf, p, nm)] else []) + install
                    + (if p.copies then [HookContainer(jf, p, nm)] else []);
    r := Ok(inits);
  }

  /** The first plugin that errs decides. */
  lemma {:induction false} FirstError(t: Template, jf: Instance, ps: seq<Plugin>, i: nat, nm: Naming)
    requires i < |ps| && WithPlugins(t, jf, ps[..i + 1], nm).Err?
    ensures WithPlugins(t, jf, ps, nm) == WithPlugins(t, jf, ps[..i + 1], nm)
    decreases |ps|
  {
    if i + 1 == |ps| {
      assert ps[..i + 1] == ps;
    } else {
      var init := ps[..|ps| - 1];
      assert init[..i + 1] == ps[..i + 1];
      FirstError(t, jf, init, i, nm);
    }
  }

  // ---------- determinism and shape ----------

  /** For plugins with distinct names the order they are listed in does not matter. */
  lemma OrderDoesNotMatter(jf: Instance, ps: seq<Plugin>, qs: seq<Plugin>, nm: Naming)
    requires multiset(ps) == multiset(qs) && DistinctKeys(ps, NameOf())
    ensures TemplateOf(jf, ps, nm) == TemplateOf(jf, qs, nm)
  {
    SortForgetsOrder(ps, qs, NameOf());
  }

  ghost predicate Declares(volumes: seq<Volume>, m: Mount) {
    exists v :: v in volumes && v.name == m.volume
  }

  /** Init containers stand plugin by plugin in name order, and within a plugin stage, install, hook. */
  predicate Before(c: InitContainer, d: InitContainer) {
    if c.plugin == d.plugin then Rank(c.kind) < Rank(d.kind) else LexLe(c.plugin, d.plugin)
  }

  function Rank(k: Kind): nat {
    match k
    case Stage => 0
    case Install => 1
    case Hook => 2
  }

  /** What the assembly keeps: the config mount first, no mount without a volume, init containers in order. */
  ghost predicate Shape(t: Template, ps: seq<Plugin>) {
    && |t.mounts| > 0 && t.mounts[0] == CONFIG_MOUNT
    && Declares(t.volumes, CONFIG_MOUNT)
    && (forall m :: m in t.mounts ==> Declares(t.volumes, m))
    && (forall c, m :: c in t.inits && m in c.mounts ==> Declares(t.volumes, m) || DeclaredByUser(ps, c, m))
    && (forall i, j :: 0 <= i < j < |t.inits| ==> Before(t.inits[i], t.inits[j]))
    && (forall c :: c in t.inits ==> exists p :: p in ps && p.name == c.plugin)
  }

  /** A mount the plugin's own install settings ask for. */
  ghost predicate DeclaredByUser(ps: seq<Plugin>, c: InitContainer, m: Mount) {
    exists p :: p in ps && p.name == c.plugin && p.install.Some? && m in p.install.value.mounts
  }

  /** Adding a volume and a mount of it. */
  lemma GrowKeepsShape(t: Template, t': Template, v: Volume, m: Mount)
    requires Shape(t, []) && v.name == m.volume
    requires t'.volumes == t.volumes + [v] && t'.mounts == t.mounts + [m] && t'.inits == t.inits
    ensures Shape(t', [])
  {
    assert v in t'.volumes;
    assert forall w :: w in t.volumes ==> w in t'.volumes;
  }

  lemma StorageShape(jf: Instance, nm: Naming)
    ensures Shape(Storage0(jf, nm), []) && Storage0(jf, nm).inits == []
  {
    var config := Volume("config", ClaimSource(ConfigClaimName(jf, nm), false));
    var t := Template([CONFIG_MOUNT], [], [], [config], []);
    assert config in t.volumes;
    assert Shape(t, []);
    var st := jf.storage;
    if st.cache.Some? {
      var path := if st.cache.value.mountPath != "" then st.cache.value.mountPath else "/cache";
      var t' := WithClaim(t, "cache", CacheClaimName(jf, nm), path).(env := t.env + [("JELLYFIN_CACHE_DIR", path)]);
      GrowKeepsShape(t, t', Volume("cache", ClaimSource(CacheClaimName(jf, nm), false)), Mount("cache", path, "", false));
      t := t';
    }
    if st.trickplay.Some? {
      var path := if st.trickplay.value.mountPath != "" then st.trickplay.value.mountPath else "/config/data/trickplay";
      var claim := TrickplayClaimName(jf, nm);
      GrowKeepsShape(t, WithClaim(t, "trickplay", claim, path), Volume("trickplay", ClaimSource(claim, false)),
                     Mount("trickplay", path, "", false));
    }
  }

  lemma {:induction false} MediaShape(t: Template, jf: Instance, media: seq<MediaFolder>, nm: Naming)
    requires Shape(t, []) && t.inits == []
    ensures Shape(WithMedia(t, jf, media, nm), []) && WithMedia(t, jf, media, nm).inits == []
  {
    if media != [] {
      var init, mf := media[..|media| - 1], media[|media| - 1];
      MediaShape(t, jf, init, nm);
      GrowKeepsShape(WithMedia(t, jf, init, nm), WithMedia(t, jf, media, nm), MediaVolume(jf, mf, nm), MediaMount(jf, mf, nm));
    }
  }

  lemma WebShape(t: Template, jf: Instance)
    requires Shape(t, []) && t.inits == []
    ensures Shape(WithWeb(t, jf), []) && WithWeb(t, jf).inits == []
  {
    if jf.webVolume.Some? {
      var t' := WithWeb(t, jf);
      GrowKeepsShape(t, t', t'.volumes[|t.volumes|], t'.mounts[|t.mounts|]);
    }
  }

  lemma BlockOrder(jf: Instance, p: Plugin, nm: Naming)
    requires Block(jf, p, nm).Ok?
    ensures
      var block := Block(jf, p, nm).value;
      && (forall c :: c in block ==> c.plugin == p.name)
      && (forall i, j :: 0 <= i < j < |block| ==> Rank(block[i].kind) < Rank(block[j].kind))
  {
    var install := InstallBlock(jf, p, nm).value;
    assert forall c :: c in install ==> c.plugin == p.name && c.kind == Install;
    assert |install| <= 1;
  }

  /** The operator's own mounts in a plugin's containers. */
  ghost predicate OwnMount(p: Plugin, nm: Naming, m: Mount) {
    m == CONFIG_MOUNT || m.volume == PluginVolume(p, nm).name
  }

  lemma BlockMounts(jf: Instance, p: Plugin, nm: Naming, c: InitContainer, m: Mount)
    requires Block(jf, p, nm).Ok? && c in Block(jf, p, nm).value && m in c.mounts
    ensures OwnMount(p, nm, m) || (p.install.Some? && m in p.install.value.mounts)
  {
    var install := InstallBlock(jf, p, nm).value;
    if c in install {
      assert c.mounts == [CONFIG_MOUNT] + p.install.value.mounts;
    } else {
      assert c == StageContainer(jf, p, nm) || c == HookContainer(jf, p, nm);
    }
  }

  lemma DeclaresMore(volumes: seq<Volume>, v: Volume, m: Mount)
    ensures Declares(volumes, m) || v.name == m.volume ==> Declares(volumes + [v], m)
  {
    if w :| w in volumes && w.name == m.volume {
      assert w in volumes + [v];
    }
    assert v in volumes + [v];
  }

  lemma UserMore(ps: seq<Plugin>, p: Plugin, c: InitContainer, m: Mount)
    ensures DeclaredByUser(ps, c, m) ==> DeclaredByUser(ps + [p], c, m)
    ensures p.name == c.plugin && p.install.Some? && m in p.install.value.mounts ==> DeclaredByUser(ps + [p], c, m)
  {
    if q :| q in ps && q.name == c.plugin && q.install.Some? && m in q.install.value.mounts {
      assert q in ps + [p];
    }
    assert p in ps + [p];
  }

  /** One more plugin, whose name follows all before it. */
  lemma PluginKeepsOrder(inits: seq<InitContainer>, block: seq<InitContainer>, ps: seq<Plugin>, p: Plugin)
    requires forall q :: q in ps ==> LexLe(q.name, p.name) && q.name != p.name
    requires forall i, j :: 0 <= i < j < |inits| ==> Before(inits[i], inits[j])
    requires forall c :: c in inits ==> exists q :: q in ps && q.name == c.plugin
    requires forall c :: c in block ==> c.plugin == p.name
    requires forall i, j :: 0 <= i < j < |block| ==> Rank(block[i].kind) < Rank(block[j].kind)
    ensures forall i, j :: 0 <= i < j < |inits + block| ==> Before((inits + block)[i], (inits + block)[j])
    ensures forall c :: c in inits + block ==> exists q :: q in ps + [p] && q.name == c.plugin
  {
    var all := inits + block;
    forall i, j | 0 <= i < j < |all|
      ensures Before(all[i], all[j])
    {
      if i < |inits| <= j {
        assert all[i] in inits && all[j] in block;
      } else if i >= |inits| {
        assert all[i] in block && all[j] in block;
      }
    }
    forall c | c in all
      ensures exists q :: q in ps + [p] && q.name == c.plugin
    {
      if c in inits {
        var q :| q in ps && q.name == c.plugin;
        assert q in ps + [p];
      } else {
        assert p in ps + [p];
      }
    }
  }

  lemma GrowByPlugin(t: Template, t': Template, ps: seq<Plugin>, p: Plugin, v: Volume, block: seq<InitContainer>)
    requires Shape(t, ps) && (forall q :: q in ps ==> LexLe(q.name, p.name) && q.name != p.name)
    requires t'.volumes == t.volumes + [v] && t'.inits == t.inits + block
    requires t.mounts <= t'.mounts && forall m :: m in t'.mounts ==> m in t.mounts || m.volume == v.name
    requires forall c :: c in block ==> c.plugin == p.name
    requires forall i, j :: 0 <= i < j < |block| ==> Rank(block[i].kind) < Rank(block[j].kind)
    requires forall c, m :: c in block && m in c.mounts ==>
      m == CONFIG_MOUNT || m.volume == v.name || (p.install.Some? && m in p.install.value.mounts)
    ensures Shape(t', ps + [p])
  {
    PluginKeepsOrder(t.inits, block, ps, p);
    DeclaresMore(t.volumes, v, CONFIG_MOUNT);
    forall m | m in t'.mounts
      ensures Declares(t'.volumes, m)
    {
      DeclaresMore(t.volumes, v, m);
    }
    forall c, m | c in t'.inits && m in c.mounts
      ensures Declares(t'.volumes, m) || DeclaredByUser(ps + [p], c, m)
    {
      DeclaresMore(t.volumes, v, m);
      UserMore(ps, p, c, m);
    }
  }

  lemma OwnMountAdded(t: Template, jf: Instance, p: Plugin, nm: Naming)
    requires WithPlugin(t, jf, p, nm).Ok?
    ensures
      var t', v := WithPlugin(t, jf, p, nm).value, PluginVolume(p, nm);
      && t'.volumes == t.volumes + [v] && t'.inits == t.inits + Block(jf, p, nm).value && t.mounts <= t'.mounts
      && forall m :: m in t'.mounts ==> m in t.mounts || m.volume == v.name
  {
  }

  lemma PluginKeepsShape(t: Template, jf: Instance, ps: seq<Plugin>, p: Plugin, nm: Naming)
    requires Shape(t, ps) && WithPlugin(t, jf, p, nm).Ok?
    requires forall q :: q in ps ==> LexLe(q.name, p.name) && q.name != p.name
    ensures Shape(WithPlugin(t, jf, p, nm).value, ps + [p])
  {
    var block, t', v := Block(jf, p, nm).value, WithPlugin(t, jf, p, nm).value, PluginVolume(p, nm);
    BlockOrder(jf, p, nm);
    forall c, m | c in block && m in c.mounts
      ensures m == CONFIG_MOUNT || m.volume == v.name || (p.install.Some? && m in p.install.value.mounts)
    {
      BlockMounts(jf, p, nm, c, m);
    }
    OwnMountAdded(t, jf, p, nm);
    GrowByPlugin(t, t', ps, p, v, block);
  }

  lemma LastAfter(ps: seq<Plugin>, q: Plugin)
    requires SortedBy(ps, NameOf()) && DistinctKeys(ps, NameOf()) && ps != [] && q in ps[..|ps| - 1]
    ensures LexLe(q.name, ps[|ps| - 1].name) && q.name != ps[|ps| - 1].name
  {
    var i :| 0 <= i < |ps| - 1 && ps[i] == q;
    var key := NameOf();
    assert LexLe(key(ps[i]), key(ps[|ps| - 1])) && key(ps[i]) != key(ps[|ps| - 1]);
  }

  lemma WithOneMore(t: Template, jf: Instance, ps: seq<Plugin>, nm: Naming)
    requires ps != [] && WithPlugins(t, jf, ps, nm).Ok?
    ensures
      var init, p := ps[..|ps| - 1], ps[|ps| - 1];
      && WithPlugins(t, jf, init, nm).Ok?
      && WithPlugins(t, jf, ps, nm) == WithPlugin(WithPlugins(t, jf, init, nm).value, jf, p, nm)
  {
  }

  lemma SortedInit(ps: seq<Plugin>)
    requires SortedBy(ps, NameOf()) && DistinctKeys(ps, NameOf()) && ps != []
    ensures SortedBy(ps[..|ps| - 1], NameOf()) && DistinctKeys(ps[..|ps| - 1], NameOf())
    ensures forall q :: q in ps[..|ps| - 1] ==> LexLe(q.name, ps[|ps| - 1].name) && q.name != ps[|ps| - 1].name
  {
    forall q | q in ps[..|ps| - 1]
      ensures LexLe(q.name, ps[|ps| - 1].name) && q.name != ps[|ps| - 1].name
    {
      LastAfter(ps, q);
    }
  }

  lemma {:induction false} PluginsShape(t: Template, jf: Instance, ps: seq<Plugin>, nm: Naming)
    requires Shape(t, []) && WithPlugins(t, jf, ps, nm).Ok?
    requires SortedBy(ps, NameOf()) && DistinctKeys(ps, NameOf())
    ensures Shape(WithPlugins(t, jf, ps, nm).value, ps)
  {
    if ps != [] {
      var init, p := ps[..|ps| - 1], ps[|ps| - 1];
      InitAndLast(ps);
      WithOneMore(t, jf, ps, nm);
      SortedInit(ps);
      PluginsShape(t, jf, init, nm);
      PluginKeepsShape(WithPlugins(t, jf, init, nm).value, jf, init, p, nm);
    }
  }

  ghost predicate Has(t: Template, plugin: string, kind: Kind) {
    exists c :: c in t.inits && c.plugin == plugin && c.kind == kind
  }

  /**
   The plugin gets what its settings call for and no more: its volume always; staged and hooked if it is
   copied, mounted into the server if not; an install container if it has an inline install.
   */
  ghost predicate Equipped(t: Template, p: Plugin, nm: Naming) {
    && PluginVolume(p, nm) in t.volumes
    && (Has(t, p.name, Stage) <==> p.copies) && (Has(t, p.name, Hook) <==> p.copies)
    && (Has(t, p.name, Install) <==> p.install.Some? && p.install.value.Inline())
    && (!p.copies ==> PluginMount(p, nm) in t.mounts)
  }

  lemma BlockKinds(jf: Instance, p: Plugin, nm: Naming)
    requires Block(jf, p, nm).Ok?
    ensures
      var block := Block(jf, p, nm).value;
      && (p.copies ==> StageContainer(jf, p, nm) in block && HookContainer(jf, p, nm) in block)
      && (p.install.Some? && p.install.value.Inline() ==> InstallContainer(jf, p, nm).value in block)
      && (forall c :: c in block ==> c.plugin == p.name)
      && (forall c :: c in block ==> if c.kind.Install? then p.install.Some? && p.install.value.Inline() else p.copies)
  {
    var install := InstallBlock(jf, p, nm).value;
    if p.install.Some? && p.install.value.Inline() {
      assert install == [InstallContainer(jf, p, nm).value];
    } else {
      assert install == [];
    }
  }

  lemma OneMoreEquipped(t: Template, jf: Instance, p: Plugin, nm: Naming, q: Plugin)
    requires WithPlugin(t, jf, p, nm).Ok?
    requires q.name != p.name && Equipped(t, q, nm)
    ensures Equipped(WithPlugin(t, jf, p, nm).value, q, nm)
  {
    var t' := WithPlugin(t, jf, p, nm).value;
    BlockKinds(jf, p, nm);
    assert forall c: InitContainer :: c.plugin == q.name ==> (c in t'.inits <==> c in t.inits);
  }

  lemma LastEquipped(t: Template, jf: Instance, p: Plugin, nm: Naming)
    requires WithPlugin(t, jf, p, nm).Ok? && forall c :: c in t.inits ==> c.plugin != p.name
    ensures Equipped(WithPlugin(t, jf, p, nm).value, p, nm)
  {
    var t' := WithPlugin(t, jf, p, nm).value;
    BlockKinds(jf, p, nm);
    if p.copies {
      assert StageContainer(jf, p, nm) in t'.inits && HookContainer(jf, p, nm) in t'.inits;
    }
    if p.install.Some? && p.install.value.Inline() {
      assert InstallContainer(jf, p, nm).value in t'.inits;
    }
  }

  lemma {:induction false} InitsAreOf(t: Template, jf: Instance, ps: seq<Plugin>, nm: Naming)
    requires t.inits == [] && WithPlugins(t, jf, ps, nm).Ok?
    ensures forall c :: c in WithPlugins(t, jf, ps, nm).value.inits ==> exists p :: p in ps && p.name == c.plugin
  {
    if ps != [] {
      var init, p := ps[..|ps| - 1], ps[|ps| - 1];
      InitsAreOf(t, jf, init, nm);
      BlockKinds(jf, p, nm);
      assert p in ps && forall q :: q in init ==> q in ps;
      var t0 := WithPlugins(t, jf, init, nm).value;
      forall c | c in t0.inits + Block(jf, p, nm).value
        ensures exists p :: p in ps && p.name == c.plugin
      {
        if c in t0.inits {
          var q :| q in init && q.name == c.plugin;
        }
      }
    }
  }

  lemma LastDistinct(ps: seq<Plugin>, q: Plugin)
    requires DistinctKeys(ps, NameOf()) && ps != [] && q in ps[..|ps| - 1]
    ensures q.name != ps[|ps| - 1].name
  {
    var i :| 0 <= i < |ps| - 1 && ps[i] == q;
    var key := NameOf();
    assert key(ps[i]) != key(ps[|ps| - 1]);
  }

  lemma {:induction false} PluginsEquipped(t: Template, jf: Instance, ps: seq<Plugin>, nm: Naming, q: Plugin)
    requires t.inits == [] && WithPlugins(t, jf, ps, nm).Ok? && DistinctKeys(ps, NameOf()) && q in ps
    ensures Equipped(WithPlugins(t, jf, ps, nm).value, q, nm)
  {
    var init, p := ps[..|ps| - 1], ps[|ps| - 1];
    var t0 := WithPlugins(t, jf, init, nm).value;
    if q in init {
      LastDistinct(ps, q);
      PluginsEquipped(t, jf, init, nm, q);
      OneMoreEquipped(t0, jf, p, nm, q);
    } else {
      InitsAreOf(t, jf, init, nm);
      forall c | c in t0.inits
        ensures c.plugin != p.name
      {
        var r :| r in init && r.name == c.plugin;
        LastDistinct(ps, r);
      }
      assert q == p;
      LastEquipped(t0, jf, p, nm);
    }
  }

  /**
   Shape of every template built from plugins with distinct names: the config mount comes first, every
   mount the operator generates names a declared volume, and the init containers form one block per
   plugin, in name order, staged before installed before hooked, with just the containers, volumes and
   mounts its settings call for.
   */
  lemma TemplateShape(jf: Instance, plugins: seq<Plugin>, nm: Naming)
    requires DistinctKeys(plugins, NameOf()) && TemplateOf(jf, plugins, nm).Ok?
    ensures Shape(TemplateOf(jf, plugins, nm).value, plugins)
    ensures forall p :: p in plugins ==> Equipped(TemplateOf(jf, plugins, nm).value, p, nm)
  {
    var base := Storage0(jf, nm);
    StorageShape(jf, nm);
    MediaShape(base, jf, jf.storage.media, nm);
    WebShape(WithMedia(base, jf, jf.storage.media, nm), jf);
    SortByKeeps(plugins, NameOf());
    SortByMembers(plugins, NameOf());
    SortKeepsDistinctKeys(plugins, NameOf());
    PluginsShape(WithWeb(WithMedia(base, jf, jf.storage.media, nm), jf), jf, SortBy(plugins, NameOf()), nm);
    forall p | p in plugins
      ensures Equipped(TemplateOf(jf, plugins, nm).value, p, nm)
    {
      PluginsEquipped(WithWeb(WithMedia(base, jf, jf.storage.media, nm), jf), jf, SortBy(plugins, NameOf()), nm, p);
    }
    var t := TemplateOf(jf, plugins, nm).value;
    forall c, m | c in t.inits && m in c.mounts && !Declares(t.volumes, m)
      ensures DeclaredByUser(plugins, c, m)
    {
      assert DeclaredByUser(SortBy(plugins, NameOf()), c, m);
    }
  }

  // ---------- what is in the template, on the fields of the spec ----------

  /** The build fails exactly when some plugin gives both a script and a command to install it. */
  lemma {:induction false} PluginsErrIff(t: Template, jf: Instance, ps: seq<Plugin>, nm: Naming)
    ensures WithPlugins(t, jf, ps, nm).Err? <==>
      exists p :: p in ps && p.install.Some? && p.install.value.script != "" && p.install.value.command != []
  {
    if ps != [] {
      var init, p := ps[..|ps| - 1], ps[|ps| - 1];
      InitAndLast(ps);
      PluginsErrIff(t, jf, init, nm);
      assert p in ps && forall q :: q in ps <==> q in init || q == p;
    }
  }

  lemma TemplateErrIff(jf: Instance, plugins: seq<Plugin>, nm: Naming)
    ensures TemplateOf(jf, plugins, nm).Err? <==>
      exists p :: p in plugins && p.install.Some? && p.install.value.script != "" && p.install.value.command != []
  {
    SortByMembers(plugins, NameOf());
    PluginsErrIff(WithWeb(WithMedia(Storage0(jf, nm), jf, jf.storage.media, nm), jf), jf, SortBy(plugins, NameOf()), nm);
  }

  /** Plugins add volumes and mounts, and nothing else to the server container. */
  lemma {:induction false} PluginsOnlyAdd(t: Template, jf: Instance, ps: seq<Plugin>, nm: Naming)
    requires WithPlugins(t, jf, ps, nm).Ok?
    ensures
      var t' := WithPlugins(t, jf, ps, nm).value;
      t.volumes <= t'.volumes && t.mounts <= t'.mounts && t'.env == t.env && t'.command == t.command
  {
    if ps != [] {
      WithOneMore(t, jf, ps, nm);
      PluginsOnlyAdd(t, jf, ps[..|ps| - 1], nm);
    }
  }

  lemma {:induction false} MediaOnlyAdds(t: Template, jf: Instance, media: seq<MediaFolder>, nm: Naming)
    ensures
      var t' := WithMedia(t, jf, media, nm);
      && t.volumes <= t'.volumes && t.mounts <= t'.mounts && t'.env == t.env && t'.command == t.command
      && forall mf :: mf in media ==> MediaVolume(jf, mf, nm) in t'.volumes && MediaMount(jf, mf, nm) in t'.mounts
  {
    if media != [] {
      InitAndLast(media);
      MediaOnlyAdds(t, jf, media[..|media| - 1], nm);
    }
  }

  /** The template is the base with more volumes and mounts behind. */
  lemma TemplateHolds(jf: Instance, plugins: seq<Plugin>, nm: Naming)
    requires TemplateOf(jf, plugins, nm).Ok?
    ensures
      var media, t := WithMedia(Storage0(jf, nm), jf, jf.storage.media, nm), TemplateOf(jf, plugins, nm).value;
      var base := WithWeb(media, jf);
      && (forall v :: v in media.volumes || v in base.volumes ==> v in t.volumes)
      && (forall m :: m in media.mounts || m in base.mounts ==> m in t.mounts)
      && (forall e :: e in media.env ==> e in t.env) && t.env == base.env && t.command == base.command
  {
    var media := WithMedia(Storage0(jf, nm), jf, jf.storage.media, nm);
    var base, t := WithWeb(media, jf), TemplateOf(jf, plugins, nm).value;
    PluginsOnlyAdd(base, jf, SortBy(plugins, NameOf()), nm);
    PrefixMembers(base.volumes, t.volumes);
    PrefixMembers(base.mounts, t.mounts);
    PrefixMembers(media.volumes, base.volumes);
    PrefixMembers(media.mounts, base.mounts);
    PrefixMembers(media.env, base.env);
  }

  /** The volume that serves a media folder, by its one source. */
  predicate SourceOf(mf: MediaFolder, source: VolumeSource, derived: string)
    requires OneSource(mf)
  {
    var ro := mf.readOnly || (mf.nfs.Some? && mf.nfs.value.readOnly);
    if mf.existingClaim != "" then source == ClaimSource(mf.existingClaim, ro)
    else if mf.pvc.Some? then source == ClaimSource(if mf.pvc.value.existingClaim != "" then mf.pvc.value.existingClaim else derived, ro)
    else if mf.nfs.value.provision || mf.nfs.value.mountOptions != [] then source == ClaimSource(derived, ro)
    else source == NfsVolume(mf.nfs.value.server, mf.nfs.value.path, ro)
  }

  /**
   Every media folder is mounted into the server at its path from its own source, read-only when the folder or
   its export is.
   */
  lemma FoldersAreMounted(jf: Instance, plugins: seq<Plugin>, nm: Naming, mf: MediaFolder) returns (v: Volume, m: Mount)
    requires TemplateOf(jf, plugins, nm).Ok? && mf in jf.storage.media && OneSource(mf)
    ensures v in TemplateOf(jf, plugins, nm).value.volumes && m in TemplateOf(jf, plugins, nm).value.mounts
    ensures m == Mount(v.name, mf.mountPath, "", mf.readOnly || (mf.nfs.Some? && mf.nfs.value.readOnly))
    ensures SourceOf(mf, v.source, nm.Prefix(jf.name + "-media", mf.name))
  {
    v, m := MediaVolume(jf, mf, nm), MediaMount(jf, mf, nm);
    TemplateHolds(jf, plugins, nm);
    MediaOnlyAdds(Storage0(jf, nm), jf, jf.storage.media, nm);
    FolderFields(jf, nm, mf);
  }

  lemma FolderFields(jf: Instance, nm: Naming, mf: MediaFolder)
    requires OneSource(mf)
    ensures SourceOf(mf, MediaVolume(jf, mf, nm).source, nm.Prefix(jf.name + "-media", mf.name))
  {
  }

  /** A writable claim, mounted under `name` at `path`. */
  predicate Mounts(t: Template, name: string, claim: string, path: string) {
    Volume(name, ClaimSource(claim, false)) in t.volumes && Mount(name, path, "", false) in t.mounts
  }

  function Given(value: string, otherwise: string): string {
    if value == "" then otherwise else value
  }

  /** The server's own storage, as `t` should hold it. */
  ghost predicate HoldsStorage(t: Template, jf: Instance, nm: Naming) {
    var st := jf.storage;
    && Mounts(t, "config", Given(st.config.existingClaim, nm.Truncate(jf.name + "-config")), "/config")
    && (st.cache.Some? ==>
          var path := Given(st.cache.value.mountPath, "/cache");
          && Mounts(t, "cache", Given(st.cache.value.existingClaim, nm.Truncate(jf.name + "-cache")), path)
          && ("JELLYFIN_CACHE_DIR", path) in t.env)
    && (st.trickplay.Some? ==>
          Mounts(t, "trickplay", Given(st.trickplay.value.existingClaim, nm.Truncate(jf.name + "-trickplay")),
                 Given(st.trickplay.value.mountPath, "/config/data/trickplay")))
  }

  lemma StorageHolds(jf: Instance, nm: Naming)
    ensures HoldsStorage(Storage0(jf, nm), jf, nm)
  {
  }

  lemma HoldsMore(t: Template, t': Template, jf: Instance, nm: Naming)
    requires HoldsStorage(t, jf, nm)
    requires (forall v :: v in t.volumes ==> v in t'.volumes) && (forall m :: m in t.mounts ==> m in t'.mounts)
    requires forall e :: e in t.env ==> e in t'.env
    ensures HoldsStorage(t', jf, nm)
  {
  }

  /**
   The server's own storage: the configuration at /config, the cache and the trickplay images at the paths given
   for them or else at their default places, from the claims named or else from derived ones; and Jellyfin is told
   where its cache is.
   */
  lemma StorageIsMounted(jf: Instance, plugins: seq<Plugin>, nm: Naming)
    requires TemplateOf(jf, plugins, nm).Ok?
    ensures HoldsStorage(TemplateOf(jf, plugins, nm).value, jf, nm)
  {
    var t0 := Storage0(jf, nm);
    var media := WithMedia(t0, jf, jf.storage.media, nm);
    StorageHolds(jf, nm);
    MediaOnlyAdds(t0, jf, jf.storage.media, nm);
    PrefixMembers(t0.volumes, media.volumes);
    PrefixMembers(t0.mounts, media.mounts);
    HoldsMore(t0, media, jf, nm);
    TemplateHolds(jf, plugins, nm);
    HoldsMore(media, TemplateOf(jf, plugins, nm).value, jf, nm);
  }

  /** With a web image to serve, the server hosts it read-only and is started without its baked arguments. */
  lemma WebIsServed(jf: Instance, plugins: seq<Plugin>, nm: Naming)
    requires TemplateOf(jf, plugins, nm).Ok?
    ensures
      var t := TemplateOf(jf, plugins, nm).value;
      match jf.webVolume
      case None => t.command == []
      case Some(web) =>
        && Volume("jellyfin-web-content", ImageVolume(web.image, Given(web.pullPolicy, "IfNotPresent"))) in t.volumes
        && Mount("jellyfin-web-content", "/jellyfin-web", web.subPath, true) in t.mounts
        && ("JELLYFIN_WEB_DIR", "/jellyfin-web") in t.env && t.command == ["/jellyfin/jellyfin"]
  {
    TemplateHolds(jf, plugins, nm);
    var t0 := Storage0(jf, nm);
    var media := WithMedia(t0, jf, jf.storage.media, nm);
    MediaOnlyAdds(t0, jf, jf.storage.media, nm);
    if jf.webVolume.Some? {
      WebHolds(media, jf);
    }
  }

  lemma WebHolds(t: Template, jf: Instance)
    requires jf.webVolume.Some?
    ensures
      var t', web := WithWeb(t, jf), jf.webVolume.value;
      && Volume("jellyfin-web-content", ImageVolume(web.image, Given(web.pullPolicy, "IfNotPresent"))) in t'.volumes
      && Mount("jellyfin-web-content", "/jellyfin-web", web.subPath, true) in t'.mounts
      && ("JELLYFIN_WEB_DIR", "/jellyfin-web") in t'.env && t'.command == ["/jellyfin/jellyfin"]
  {
  }

  /** A plugin that is not copied is mounted read-only, from its image, into the directory named after it and its version. */
  lemma PluginsAreMounted(jf: Instance, plugins: seq<Plugin>, nm: Naming, p: Plugin) returns (v: Volume, m: Mount)
    requires DistinctKeys(plugins, NameOf()) && TemplateOf(jf, plugins, nm).Ok? && p in plugins && !p.copies
    ensures v in TemplateOf(jf, plugins, nm).value.volumes && m in TemplateOf(jf, plugins, nm).value.mounts
    ensures v.source == ImageVolume(p.image.reference, Given(p.image.pullPolicy, "IfNotPresent"))
    ensures m.volume == v.name && m.readOnly && m.subPath == Given(p.metaSubPath, p.imageSubPath)
    ensures p.metaVersion == "" ==> m.path == "/config/plugins/" + Given(p.metaName, "plugin")
    ensures p.metaVersion != "" ==> m.path == "/config/plugins/" + (Given(p.metaName, "plugin") + "_" + p.metaVersion)
  {
    v, m := PluginVolume(p, nm), PluginMount(p, nm);
    TemplateShape(jf, plugins, nm);
    assert Equipped(TemplateOf(jf, plugins, nm).value, p, nm);
  }

  lemma {:induction false} InitsInBlocks(t: Template, jf: Instance, ps: seq<Plugin>, nm: Naming, c: InitContainer) returns (p: Plugin)
    requires t.inits == [] && WithPlugins(t, jf, ps, nm).Ok? && c in WithPlugins(t, jf, ps, nm).value.inits
    ensures p in ps && Block(jf, p, nm).Ok? && c in Block(jf, p, nm).value
  {
    InitAndLast(ps);
    WithOneMore(t, jf, ps, nm);
    var init, last := ps[..|ps| - 1], ps[|ps| - 1];
    if c in WithPlugins(t, jf, init, nm).value.inits {
      p := InitsInBlocks(t, jf, init, nm, c);
    } else {
      p := last;
    }
  }

  /** The image a plugin's scripts run in: its own if it gives one, else the server's. */
  function ScriptImage(jf: Instance, p: Plugin): string {
    match p.install
    case Some(inst) => if inst.image.Some? then inst.image.value.reference else Given(jf.image, "jellyfin/jellyfin:latest")
    case None => Given(jf.image, "jellyfin/jellyfin:latest")
  }

  /**
   What an init container is: staging runs in the server's image over the plugin's read-only image and the
   configuration, installs and hooks run in the script image over the configuration and the mounts they ask for.
   */
  lemma InitContainersAre(jf: Instance, plugins: seq<Plugin>, nm: Naming, c: InitContainer) returns (p: Plugin)
    requires TemplateOf(jf, plugins, nm).Ok? && c in TemplateOf(jf, plugins, nm).value.inits
    ensures p in plugins && c.plugin == p.name && Mount("config", "/config", "", false) in c.mounts
    ensures c.kind.Stage? ==>
      && p.copies && c.image == Given(jf.image, "jellyfin/jellyfin:latest") && |c.mounts| == 2
      && Mount(PluginVolume(p, nm).name, "/plugins-src/" + p.name, "", true) in c.mounts
    ensures !c.kind.Stage? ==>
      && c.image == ScriptImage(jf, p)
      && c.mounts == [Mount("config", "/config", "", false)] + (if p.install.Some? then p.install.value.mounts else [])
  {
    SortByMembers(plugins, NameOf());
    var base := WithWeb(WithMedia(Storage0(jf, nm), jf, jf.storage.media, nm), jf);
    StorageShape(jf, nm);
    MediaShape(Storage0(jf, nm), jf, jf.storage.media, nm);
    p := InitsInBlocks(base, jf, SortBy(plugins, NameOf()), nm, c);
    BlockFields(jf, p, nm, c);
  }

  lemma BlockFields(jf: Instance, p: Plugin, nm: Naming, c: InitContainer)
    requires Block(jf, p, nm).Ok? && c in Block(jf, p, nm).value
    ensures c.plugin == p.name && CONFIG_MOUNT in c.mounts && (c.kind.Stage? ==> p.copies)
    ensures c.kind.Stage? ==> c == StageContainer(jf, p, nm) && |c.mounts| == 2 && c.mounts[0] in c.mounts
    ensures !c.kind.Stage? ==>
      c.image == InstallImage(jf, p)
      && c.mounts == [CONFIG_MOUNT] + (if p.install.Some? then p.install.value.mounts else [])
  {
    BlockKinds(jf, p, nm);
    var install := InstallBlock(jf, p, nm).value;
    if c in install {
      assert c == InstallContainer(jf, p, nm).value && c.mounts[0] == CONFIG_MOUNT;
    } else if p.copies && c == HookContainer(jf, p, nm) {
      assert c.mounts[0] == CONFIG_MOUNT;
    } else {
      assert c == StageContainer(jf, p, nm) && c.mounts[1] == CONFIG_MOUNT;
    }
  }
}
