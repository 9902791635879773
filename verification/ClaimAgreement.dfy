/**
 The claims the pod mounts against the claims the storage reconciler creates in the same pass.
 */
module ClaimAgreement {
  import opened Common
  import opened InstanceSpec
  import opened PodTemplate
  import Ordering

  /** Whether the reconciler provisions a claim for the folder. */
  predicate Provisions(mf: MediaFolder) {
    if mf.existingClaim != "" then false
    else if mf.nfs.Some? then mf.nfs.value.provision
    else mf.pvc.Some? && mf.pvc.value.existingClaim == ""
  }

  ghost predicate EnsuredClaim(jf: Instance, nm: Naming, c: string) {
    || OwnClaim(jf, nm, c)
    || (exists mf :: mf in jf.storage.media && Provisions(mf) && c == MediaClaimName(jf, mf, nm))
  }

  /** Which claims those are, on the spec's fields. */
  lemma EnsuredMeaning(jf: Instance, nm: Naming, c: string)
    ensures
      var st := jf.storage;
      EnsuredClaim(jf, nm, c) <==>
        || (st.config.existingClaim == "" && c == nm.Truncate(jf.name + "-config"))
        || (st.cache.Some? && st.cache.value.existingClaim == "" && c == nm.Truncate(jf.name + "-cache"))
        || (st.trickplay.Some? && st.trickplay.value.existingClaim == "" && c == nm.Truncate(jf.name + "-trickplay"))
        || (exists mf :: mf in st.media && mf.existingClaim == "" && mf.nfs.Some? && mf.nfs.value.provision && c == MediaClaimName(jf, mf, nm))
        || (exists mf :: mf in st.media && mf.existingClaim == "" && mf.nfs.None? && mf.pvc.Some? && mf.pvc.value.existingClaim == ""
              && c == nm.Prefix(jf.name + "-media", mf.name))
  {
  }

  /** Claims the spec says exist already. */
  ghost predicate DeclaredClaim(jf: Instance, c: string) {
    var st := jf.storage;
    c != "" && (
      || st.config.existingClaim == c
      || (st.cache.Some? && st.cache.value.existingClaim == c)
      || (st.trickplay.Some? && st.trickplay.value.existingClaim == c)
      || (exists mf :: mf in st.media && (mf.existingClaim == c || (mf.pvc.Some? && mf.pvc.value.existingClaim == c))))
  }

  /** Creates a claim or a volume with its claim, unless the request for it is refused. */
  method Ensure(ensured: set<string>, claim: string, refused: string -> bool) returns (ok: bool, ensured': set<string>)
    ensures ok <==> !refused(claim)
    ensures ensured' == if ok then ensured + {claim} else ensured
  {
    ok := !refused(claim);
    ensured' := if ok then ensured + {claim} else ensured;
  }

  /**
   What a pass ensures, whichever claims are refused: it gets through exactly when no claim the spec needs is, and
   then has ensured all of them; otherwise it has ensured part of them.
   */
  method ReconcileStorage(jf: Instance, nm: Naming, refused: string -> bool) returns (ok: bool, ensured: set<string>)
    ensures forall c :: c in ensured ==> EnsuredClaim(jf, nm, c) && !refused(c)
    ensures ok ==> forall c :: EnsuredClaim(jf, nm, c) ==> c in ensured
    ensures ok <==> forall c :: EnsuredClaim(jf, nm, c) ==> !refused(c)
  {
    ok, ensured := EnsureOwn(jf, nm, refused);
    if !ok { return; }
    ghost var base := ensured;
    var media := jf.storage.media;
    for i := 0 to |media|
      invariant ok && forall c :: c in ensured ==> !refused(c)
      invariant forall c :: c in ensured <==> c in base || exists j :: 0 <= j < i && Provisions(media[j]) && c == MediaClaimName(jf, media[j], nm)
    {
      var mf := media[i];
      if mf.existingClaim != "" {
        continue;
      } else if mf.nfs.Some? && mf.nfs.value.provision {
        ok, ensured := Ensure(ensured, MediaClaimName(jf, mf, nm), refused);
        if !ok { return; }
      } else if mf.nfs.Some? {
        continue;
      } else if mf.pvc.Some? && mf.pvc.value.existingClaim == "" {
        ok, ensured := Ensure(ensured, MediaClaimName(jf, mf, nm), refused);
        if !ok { return; }
      }
    }
  }

  /** The claims of the server's own storage that the spec does not name. */
  ghost predicate OwnClaim(jf: Instance, nm: Naming, c: string) {
    var st := jf.storage;
    || (st.config.existingClaim == "" && c == ConfigClaimName(jf, nm))
    || (st.cache.Some? && st.cache.value.existingClaim == "" && c == CacheClaimName(jf, nm))
    || (st.trickplay.Some? && st.trickplay.value.existingClaim == "" && c == TrickplayClaimName(jf, nm))
  }

  method EnsureOwn(jf: Instance, nm: Naming, refused: string -> bool) returns (ok: bool, ensured: set<string>)
    ensures forall c :: c in ensured ==> OwnClaim(jf, nm, c) && !refused(c)
    ensures ok ==> forall c :: OwnClaim(jf, nm, c) ==> c in ensured
    ensures ok <==> forall c :: OwnClaim(jf, nm, c) ==> !refused(c)
  {
    ok, ensured := true, {};
    var st := jf.storage;
    if st.config.existingClaim == "" {
      ok, ensured := Ensure(ensured, ConfigClaimName(jf, nm), refused);
      if !ok { return; }
    }
    if st.cache.Some? && st.cache.value.existingClaim == "" {
      ok, ensured := Ensure(ensured, CacheClaimName(jf, nm), refused);
      if !ok { return; }
    }
    if st.trickplay.Some? && st.trickplay.value.existingClaim == "" {
      ok, ensured := Ensure(ensured, TrickplayClaimName(jf, nm), refused);
    }
  }

  /** The claims behind the template's volumes. */
  ghost predicate MountsClaim(t: Template, c: string) {
    exists v :: v in t.volumes && v.source.ClaimSource? && v.source.claim == c
  }

  /** The same, read off the spec. */
  ghost predicate MountedClaim(jf: Instance, nm: Naming, c: string) {
    var st := jf.storage;
    || c == ConfigClaimName(jf, nm)
    || (st.cache.Some? && c == CacheClaimName(jf, nm))
    || (st.trickplay.Some? && c == TrickplayClaimName(jf, nm))
    || (exists mf :: mf in st.media && MediaVolume(jf, mf, nm).source.ClaimSource? && c == MediaClaimName(jf, mf, nm))
  }

  lemma MountsMore(volumes: seq<Volume>, v: Volume, c: string)
    ensures (exists w :: w in volumes + [v] && w.source.ClaimSource? && w.source.claim == c)
      <==> (exists w :: w in volumes && w.source.ClaimSource? && w.source.claim == c) || (v.source.ClaimSource? && v.source.claim == c)
  {
    if w :| w in volumes && w.source.ClaimSource? && w.source.claim == c {
      assert w in volumes + [v];
    }
    assert v in volumes + [v];
  }

  lemma StorageClaims(jf: Instance, nm: Naming, c: string)
    ensures MountsClaim(Storage0(jf, nm), c) <==>
      || c == ConfigClaimName(jf, nm)
      || (jf.storage.cache.Some? && c == CacheClaimName(jf, nm))
      || (jf.storage.trickplay.Some? && c == TrickplayClaimName(jf, nm))
  {
    var config := Volume("config", ClaimSource(ConfigClaimName(jf, nm), false));
    var cache := Volume("cache", ClaimSource(CacheClaimName(jf, nm), false));
    var trickplay := Volume("trickplay", ClaimSource(TrickplayClaimName(jf, nm), false));
    assert config in [config];
    MountsMore([config], cache, c);
    MountsMore([config], trickplay, c);
    MountsMore([config] + [cache], trickplay, c);
  }

  lemma {:induction false} MediaClaims(t: Template, jf: Instance, media: seq<MediaFolder>, nm: Naming, c: string)
    ensures MountsClaim(WithMedia(t, jf, media, nm), c) <==>
      MountsClaim(t, c) || exists mf :: mf in media && MediaVolume(jf, mf, nm).source.ClaimSource? && c == MediaClaimName(jf, mf, nm)
  {
    if media != [] {
      var init, last := media[..|media| - 1], media[|media| - 1];
      assert media == init + [last];
      MediaClaims(t, jf, init, nm, c);
      MountsMore(WithMedia(t, jf, init, nm).volumes, MediaVolume(jf, last, nm), c);
    }
  }

  lemma {:induction false} PluginClaims(t: Template, jf: Instance, ps: seq<Plugin>, nm: Naming, c: string)
    requires WithPlugins(t, jf, ps, nm).Ok?
    ensures MountsClaim(WithPlugins(t, jf, ps, nm).value, c) <==> MountsClaim(t, c)
  {
    if ps != [] {
      PluginClaims(t, jf, ps[..|ps| - 1], nm, c);
      MountsMore(WithPlugins(t, jf, ps[..|ps| - 1], nm).value.volumes, PluginVolume(ps[|ps| - 1], nm), c);
    }
  }

  /** The template mounts the claims the spec calls for, and no others. */
  lemma TemplateMounts(jf: Instance, plugins: seq<Plugin>, nm: Naming, c: string)
    requires TemplateOf(jf, plugins, nm).Ok?
    ensures MountsClaim(TemplateOf(jf, plugins, nm).value, c) <==> MountedClaim(jf, nm, c)
  {
    var t0 := Storage0(jf, nm);
    var t1 := WithMedia(t0, jf, jf.storage.media, nm);
    StorageClaims(jf, nm, c);
    MediaClaims(t0, jf, jf.storage.media, nm, c);
    var t2 := WithWeb(t1, jf);
    if jf.webVolume.Some? {
      MountsMore(t1.volumes, t2.volumes[|t1.volumes|], c);
    }
    PluginClaims(t2, jf, Ordering.SortBy(plugins, NameOf()), nm, c);
  }

  /** Mount options are set only where provisioning is asked for too. */
  ghost predicate OptionsProvision(jf: Instance) {
    forall mf :: mf in jf.storage.media && mf.nfs.Some? && mf.nfs.value.mountOptions != [] ==> mf.nfs.value.provision
  }

  ghost predicate Agree(jf: Instance, nm: Naming, t: Template) {
    forall c :: MountsClaim(t, c) ==> DeclaredClaim(jf, c) || EnsuredClaim(jf, nm, c)
  }

  /** A folder's claim is backed unless its mount options should have forced provisioning. */
  lemma FolderBacked(jf: Instance, nm: Naming, mf: MediaFolder)
    requires mf in jf.storage.media && OneSource(mf) && MediaVolume(jf, mf, nm).source.ClaimSource?
    requires mf.nfs.Some? && mf.nfs.value.mountOptions != [] ==> mf.nfs.value.provision
    ensures DeclaredClaim(jf, MediaClaimName(jf, mf, nm)) || EnsuredClaim(jf, nm, MediaClaimName(jf, mf, nm))
  {
  }

  /** Every claim a pod mounts is one the spec declares or one the same pass ensures. */
  lemma ClaimsAgree(jf: Instance, plugins: seq<Plugin>, nm: Naming)
    requires TemplateOf(jf, plugins, nm).Ok? && OptionsProvision(jf)
    requires forall mf :: mf in jf.storage.media ==> OneSource(mf)
    ensures Agree(jf, nm, TemplateOf(jf, plugins, nm).value)
  {
    var t := TemplateOf(jf, plugins, nm).value;
    forall c | MountsClaim(t, c)
      ensures DeclaredClaim(jf, c) || EnsuredClaim(jf, nm, c)
    {
      TemplateMounts(jf, plugins, nm, c);
      if mf :| mf in jf.storage.media && MediaVolume(jf, mf, nm).source.ClaimSource? && c == MediaClaimName(jf, mf, nm) {
        FolderBacked(jf, nm, mf);
      }
    }
  }

  /** The derived claim names of NFS folders collide with no other claim of the spec. */
  ghost predicate NamesApart(jf: Instance, nm: Naming) {
    forall mf :: mf in jf.storage.media && mf.nfs.Some? ==>
      var c := MediaClaimName(jf, mf, nm);
      && !DeclaredClaim(jf, c) && c != ConfigClaimName(jf, nm)
      && (jf.storage.cache.Some? ==> c != CacheClaimName(jf, nm))
      && (jf.storage.trickplay.Some? ==> c != TrickplayClaimName(jf, nm))
      && forall other :: other in jf.storage.media && other != mf ==> c != MediaClaimName(jf, other, nm)
  }

  /**
   Mount options alone do not force provisioning, although the field's documentation says so: as long
   as names do not collide, the pod's claims are all backed exactly when every NFS folder with mount
   options asks for provisioning itself.
   */
  lemma ClaimsAgreeIff(jf: Instance, plugins: seq<Plugin>, nm: Naming)
    requires TemplateOf(jf, plugins, nm).Ok? && NamesApart(jf, nm)
    requires forall mf :: mf in jf.storage.media ==> OneSource(mf)
    ensures Agree(jf, nm, TemplateOf(jf, plugins, nm).value) <==> OptionsProvision(jf)
  {
    if OptionsProvision(jf) {
      ClaimsAgree(jf, plugins, nm);
    } else {
      var mf :| mf in jf.storage.media && mf.nfs.Some? && mf.nfs.value.mountOptions != [] && !mf.nfs.value.provision;
      var c := MediaClaimName(jf, mf, nm);
      TemplateMounts(jf, plugins, nm, c);
      assert MediaVolume(jf, mf, nm).source.ClaimSource?;
      assert MountsClaim(TemplateOf(jf, plugins, nm).value, c);
    }
  }

  /** One NFS folder with mount options and no word about provisioning: its pod mounts a claim that nobody creates. */
  lemma UnbackedClaim(nm: Naming) returns (jf: Instance)
    ensures NamesApart(jf, nm) && forall mf :: mf in jf.storage.media ==> OneSource(mf)
    ensures TemplateOf(jf, [], nm).Ok? && !Agree(jf, nm, TemplateOf(jf, [], nm).value)
  {
    var nfs := NfsSource("nas", "/export", false, false, "", ["nfsvers=4.1"]);
    var mf := MediaFolder("movies", "/media/movies", false, Some(nfs), None, "", None);
    var bare := Instance("jf", "", Storage(PvcSpec("", ""), None, None, [mf]), None);
    var other := MediaClaimName(bare, mf, nm) + "-config";
    jf := bare.(storage := bare.storage.(config := PvcSpec(other, "")));
    assert MediaClaimName(jf, mf, nm) == MediaClaimName(bare, mf, nm) != other;
    assert Ordering.SortBy<Plugin>([], NameOf()) == [];
    assert mf in jf.storage.media;
    ClaimsAgreeIff(jf, [], nm);
  }
}
