/** The parts of the Jellyfin resource that several components read. */
module InstanceSpec {
  import opened Common
  import opened Overlay
  import opened Names

  datatype NfsSource = NfsSource(server: string, path: string, readOnly: bool, provision: bool,
                                 storageClassName: string, mountOptions: seq<string>)

  datatype PvcSpec = PvcSpec(existingClaim: string, mountPath: string)

  datatype LibrarySpec = LibrarySpec(name: string, collectionType: string, options: Raw)

  datatype MediaFolder = MediaFolder(name: string, mountPath: string, readOnly: bool,
                                     nfs: Option<NfsSource>, pvc: Option<PvcSpec>, existingClaim: string,
                                     library: Option<LibrarySpec>)

  /** Whether the folder's volume is mounted read-only. */
  predicate MediaReadOnly(mf: MediaFolder) {
    mf.readOnly || (mf.nfs.Some? && mf.nfs.value.readOnly)
  }

  /** The admission rule on media folders: exactly one of the three sources. */
  predicate OneSource(mf: MediaFolder) {
    match (mf.nfs, mf.pvc)
    case (Some(_), None) => mf.existingClaim == ""
    case (None, Some(_)) => mf.existingClaim == ""
    case (None, None) => mf.existingClaim != ""
    case (Some(_), Some(_)) => false
  }

  datatype Storage = Storage(config: PvcSpec, cache: Option<PvcSpec>, trickplay: Option<PvcSpec>, media: seq<MediaFolder>)

  /** Lower-casing and hashing, which come from Go's libraries. */
  datatype Naming = Naming(lower: string -> string, hash: string -> ShortHash)
  {
    function Prefix(prefix: string, name: string): string {
      Prefixed(prefix, name, lower, hash)
    }

    function Truncate(s: string): string {
      TruncateName(s, hash)
    }
  }

  /** The instance: its name, storage, image and the web image if it serves the client itself. */
  datatype Instance = Instance(name: string, image: string, storage: Storage, webVolume: Option<WebVolume>)

  datatype WebVolume = WebVolume(image: string, pullPolicy: string, subPath: string)

  function ConfigClaimName(jf: Instance, nm: Naming): string {
    if jf.storage.config.existingClaim != "" then jf.storage.config.existingClaim else nm.Truncate(jf.name + "-config")
  }

  function CacheClaimName(jf: Instance, nm: Naming): string {
    if jf.storage.cache.Some? && jf.storage.cache.value.existingClaim != "" then jf.storage.cache.value.existingClaim
    else nm.Truncate(jf.name + "-cache")
  }

  function TrickplayClaimName(jf: Instance, nm: Naming): string {
    if jf.storage.trickplay.Some? && jf.storage.trickplay.value.existingClaim != "" then jf.storage.trickplay.value.existingClaim
    else nm.Truncate(jf.name + "-trickplay")
  }

  function MediaClaimName(jf: Instance, mf: MediaFolder, nm: Naming): string {
    if mf.existingClaim != "" then mf.existingClaim
    else if mf.pvc.Some? && mf.pvc.value.existingClaim != "" then mf.pvc.value.existingClaim
    else nm.Prefix(jf.name + "-media", mf.name)
  }

  // ---------- volumes and mounts ----------

  datatype VolumeSource =
    | ClaimSource(claim: string, readOnly: bool)
    | NfsVolume(server: string, path: string, readOnly: bool)
    | ImageVolume(reference: string, pullPolicy: string)
    | OtherSource(what: string)

  datatype Volume = Volume(name: string, source: VolumeSource)

  datatype Mount = Mount(volume: string, path: string, subPath: string, readOnly: bool)

  /** Inline NFS when nothing asks for provisioning, a claim otherwise. */
  function MediaVolume(jf: Instance, mf: MediaFolder, nm: Naming): Volume {
    var ro := MediaReadOnly(mf);
    Volume(nm.Prefix("media", mf.name),
           if mf.nfs.Some? && !mf.nfs.value.provision && |mf.nfs.value.mountOptions| == 0
           then NfsVolume(mf.nfs.value.server, mf.nfs.value.path, ro)
           else ClaimSource(MediaClaimName(jf, mf, nm), ro))
  }

  function MediaMount(jf: Instance, mf: MediaFolder, nm: Naming): Mount {
    Mount(MediaVolume(jf, mf, nm).name, mf.mountPath, "", MediaReadOnly(mf))
  }
}
