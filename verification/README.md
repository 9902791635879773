# jellyops, modelled and proved in Dafny

jellyops is a Kubernetes operator for Jellyfin media servers. Two controllers reconcile a `Jellyfin`
instance: one owns the Deployment, Services, storage and routes, the other drives the server over its HTTP
API. A third reconciles `JellyfinPlugin` objects with their companion workloads. This project models the
parts of the operator that decide something and proves what they promise, for every input, every
interleaving and every run.

`dafny verify dfyconfig.toml` checks everything. Modules follow the program:

| files | part of the operator |
|---|---|
| `Libraries`, `LibraryRuns`, `LibraryReconciler`, `Ownership` | the library diff, its calls one by one, the API pass, and library ownership under two status writers |
| `JsonValues`, `DeepMerge`, `Overlay`, `LibraryOptions` | JSON option overlays, the in-place deep merge on a heap, and option enforcement |
| `VolumeProtocol` | provisioned NFS volumes against the binder, spec edits and slow deletion |
| `Drain`, `Teardown` | plugin teardown against the deployment controller, request by request, and the pass and its requeue loop that run it |
| `Shell`, `ShellScripts` (with module `Wrappers`) | shell quoting, and the install and hook wrappers over many pod starts |
| `Routing` | the emitted HTTPRoute rules under Gateway API precedence |
| `Names`, `InstanceSpec`, `PodTemplate`, `ClaimAgreement`, `WorkloadMedia` | object names, the pod template, and the claims and media it mounts |
| `Versions`, `AbiGate`, `AbiGateRuns` | the plugin ABI gate from image tag to pod template |
| `Common`, `Ordering` | options and results, string order, sorting |

How the parts are modelled:

- Code that changes objects in place is imperative here too: `deepMerge` works on heap objects that come to
  share subtrees, the reconcilers are methods on a cluster or server object whose requests may fail and
  between whose requests other parties act, and list- and map-building loops are loops with invariants,
  each proved against a specification function. Iteration over a Go map picks keys arbitrarily.
- Protocols are also state machines over single requests, so that safety ranges over all interleavings.
  Statements about "every run" quantify over sequences of steps.
- A request that fails may or may not have reached the server.

## Where the code and its promises part

Each is a lemma with a witness or an exact condition.

- A plugin install with the default failure policy `Ignore` and `runOnce: false` has an empty `then` branch,
  which is a shell syntax error: the init container exits 2 and the pod does not start, although
  `docs/specification.md:629` and `:696` promise that it does (`Wrappers.IgnoreNeverBlocksIff`).
- Setting `mountOptions` on an NFS folder does not force provisioning, although
  `api/v1alpha1/jellyfin_storage_types.go:131-134` says so. The pod then mounts a claim nobody creates
  (`ClaimAgreement.ClaimsAgreeIff`; `ClaimAgreement.UnbackedClaim` is such a spec).
- Deleting a drifted PersistentVolume carries no resource version, so a volume that the binder stamps between
  the read and the delete is deleted while it serves a claim (`VolumeProtocol.DeleteRace`; exactly when, over
  all runs, `VolumeProtocol.DeleteMeetsServingIff`).
- A pass whose first read is behind, so that it misses the volume or sees an earlier one, can go on to ask for
  a change of an immutable field, which the API server refuses (`VolumeProtocol.StaleReadAsks`; never with
  up-to-date first reads, `VolumeProtocol.NeverAsksWhenFresh`).
- Teardown trusts its reads: a cache that denies a Deployment, or still has a version without pods from before
  the teardown, makes a pass delete it with its pods (`Drain.MisreadDeletesLive`; exactly when,
  `Drain.DeletionMeets`; never with answers from since the teardown began, `Drain.ReadsOfTheRunDoNoHarm`).
- The status write replaces the whole status with one computed from an older read, so ownership of a library
  can be forgotten (`Ownership.StaleOverwriteLosesOwnership`). What a write keeps and forgets is decided by the
  version its pass read (`Ownership.WriteDecidesOwnership`). What survives always is containment in the names
  ever desired, and that is what makes pruning safe.
- Two media folders under one library name with different paths never settle; every pass makes new calls
  (`LibraryRuns.SettlesIff`).
- A read-only library whose declared options contradict the read-only table is posted on every pass, though
  the options no longer change (`LibraryReconciler.SecondOptionStep`).
- `preventWrites` follows the folder's own `readOnly` only; a folder read-only through `nfs.readOnly` is
  mounted read-only but its library may be told to write (`Libraries.PreventWritesMatchesMountIff`).
- A plugin is checked against one server version but enters every instance it binds to
  (`AbiGateRuns.OtherInstanceUnchecked`, possible by `AbiGateRuns.OlderServerExists`, and exactly when the
  check covers another instance, `AbiGateRuns.CheckCoversIff`).
- A `null` in declared options is stored, not treated as a deletion, so the merge is the merge patch of
  section 2 of RFC 7396 exactly when there are no null members (`JsonValues.MergeIsMergePatchIff`).

## Model

| member | source | states |
|---|---|---|
| JsonValues.MergeEstablishes | internal/jellyfinapi/libraries.go:169-182 | after a merge, everything declared holds down to its leaves |
| JsonValues.MergeNoOpIff | internal/jellyfinapi/libraries.go:169-182 | a merge changes nothing if and only if everything declared already holds |
| JsonValues.MergeIdempotent | internal/jellyfinapi/libraries.go:166-182 | merging the same declaration again changes nothing |
| JsonValues.MergeIsMergePatchIff | internal/jellyfinapi/libraries.go:166-182 | deep merge equals MergePatch of RFC 7396 if and only if the declaration has no null object members at any depth |
| JsonValues.PatchReplaces | internal/jellyfinapi/libraries.go:166-182 | on a target that is no object, the merge patch is the patch itself exactly when it has no null members |
| DeepMerge.MergeInPlace | internal/jellyfinapi/libraries.go:169-182 | on disjoint trees the destination ends as the pure merge and the source keeps its value though its subtrees become shared; if the destination already holds what is declared, no object changes even where the two share objects |
| DeepMerge.MergeAgain | internal/jellyfinapi/libraries.go:169-182 | merging a source into what an earlier merge of it left, sharing its objects, changes no heap object |
| DeepMerge.MergeTwice | internal/jellyfinapi/libraries.go:169-182 | two merges of one source give the result of one, and no source object is ever modified |
| DeepMerge.MergeMembers | internal/jellyfinapi/libraries.go:170-181 | the loop over a Go map, in any key order, reaches the same merge |
| DeepMerge.MergeMember | internal/jellyfinapi/libraries.go:171-180 | one key: objects on both sides merge where they stand, anything else is replaced by the source's value |
| Overlay.OverlayConfig | internal/jellyfinapi/configuration.go:75-110 | computes the map overlay of the managed keys, behind server configuration and branding |
| Overlay.EnforceEncodingOptions | internal/jellyfinapi/encoding.go:69-120 | computes the same overlay for the transcode fields that are set |
| Overlay.EnforceReadOnlyOptions | internal/jellyfinapi/libraries.go:103-125 | computes the same overlay for the read-only table, in any key order |
| Overlay.OverlayContract | internal/jellyfinapi/configuration.go:69-110 | managed keys hold the desired values, other keys are unchanged, the change flag is exact, unchanged text is returned as it was, and a second application reports no change |
| Overlay.OverlayReads | internal/jellyfinapi/configuration.go:75-110 | what counts as current settings: nothing and `null` are an empty object, an object keeps its members under the managed ones, anything else is an error |
| Overlay.EncodingKeys | internal/jellyfinapi/encoding.go:69-120 | each of the four transcode keys, by its name, ends with the value its field asks for, or as it was where the field is unset |
| Overlay.EncodingOthers | internal/jellyfinapi/encoding.go:69-120 | every other encoding key is as it was |
| LibraryOptions.Unmarshal | internal/jellyfinapi/libraries.go:136-152 | decoding makes a fresh tree of heap objects with the decoded value |
| LibraryOptions.Marshal | internal/jellyfinapi/libraries.go:154-164 | encoding a tree gives back its value |
| LibraryOptions.MergeDecoded | internal/jellyfinapi/libraries.go:136-155 | decoding, merging in place and encoding give the pure merge of the two objects |
| LibraryOptions.MergeLibraryOptions | internal/jellyfinapi/libraries.go:132-164 | blank or null options are a no-op, malformed ones an error; otherwise the result is the pure merge and the change flag is exact |
| LibraryOptions.EnforcedValue | internal/controller/jellyfinapi_controller.go:316-341 | a pass yields the declared options merged over the library's options closed by the read-only table, and reports a change if and only if either stage changed something |
| LibraryOptions.EnforcedOkIff | internal/controller/jellyfinapi_controller.go:316-341 | enforcing fails if and only if the current options have to be read and cannot be, or the declared options are neither blank nor an object |
| LibraryOptions.EnforcedPrecedence | internal/controller/jellyfinapi_controller.go:309-341 | declared options win over the read-only table, undeclared table keys hold the table's values, every other key is kept |
| LibraryOptions.ReadOnlyStopsWrites | internal/jellyfinapi/libraries.go:91-97 | a pass over a read-only library leaves `SaveLocalMetadata`, `SaveSubtitlesWithMedia`, `SaveLyricsWithMedia` and `SaveTrickplayWithMedia` false and `MetadataSavers` empty, each unless the declared options mention that key |
| LibraryOptions.ReadOnlyKeepsOthers | internal/jellyfinapi/libraries.go:103-125 | and every option but these five that is not declared is as it was |
| LibraryOptions.CloseAndMergeStable | internal/controller/jellyfinapi_controller.go:316-341 | closing and merging the result of one pass gives that result again |
| LibraryOptions.ClosedMergeIsClosedIff | internal/jellyfinapi/libraries.go:87-97 | the read-only table would change a pass's result if and only if the declared options contradict it |
| LibraryOptions.SecondPass | internal/controller/jellyfinapi_controller.go:309-353 | one pass reaches the fixpoint: a second pass computes the same options and posts exactly when a read-only library's declared options contradict the table |
| Libraries.DesiredLibraries | internal/controller/jellyfinapi_controller.go:357-379 | one desired library for each folder that declares one, in order; each with the declared name or else the folder's, the folder's path, and the declared type and options |
| Libraries.WantedMeaning | internal/controller/jellyfinapi_controller.go:357-379 | a library is desired if and only if a folder with a library block gives it its name, path, type, options and write guard |
| Libraries.PreventWritesMatchesMountIff | internal/controller/jellyfinapi_controller.go:367-372 | the library's write guard agrees with the mount if and only if the folder is not read-only through its NFS source alone |
| Libraries.DiffLibraries | internal/jellyfinapi/libraries.go:221-271 | create, add, remove and prune lists of the diff: missing libraries, paths on one side only, and managed names no longer desired |
| LibraryRuns.OneCall | internal/controller/jellyfinapi_controller.go:256-281 | making one pending call removes that call from the pending set and adds none |
| LibraryRuns.Resume | internal/controller/jellyfinapi_controller.go:243-304 | after any part of the calls in any order, re-diffing gives exactly the calls not yet made, and their number fell by those made |
| LibraryRuns.GoalIffSettled | internal/jellyfinapi/libraries.go:221-271 | nothing is pending if and only if the server is at the goal |
| LibraryRuns.RunKeepsGoal | internal/controller/jellyfinapi_controller.go:256-281 | the goal computed from any intermediate state is that of the start |
| LibraryRuns.CompleteRun | internal/controller/jellyfinapi_controller.go:243-304 | confluence: every complete order ends in the same server state, with nothing pending |
| LibraryRuns.GoalMeaning | internal/jellyfinapi/libraries.go:221-271 | at the goal each desired library has exactly its paths, an old one being otherwise as it was and a new one of the desired type, pruned names are gone and everything else is untouched |
| LibraryRuns.SettlesIff | internal/controller/jellyfinapi_controller.go:357-379 | some server state settles the diff if and only if desired entries that share a name agree on their paths |
| LibraryReconciler.ChangedIffPending | internal/jellyfinapi/types.go:85-100 | the diff reports a change if and only if some call is pending |
| LibraryReconciler.DiffSpellsPending | internal/jellyfinapi/libraries.go:225-271 | the lists of the diff against a listing are exactly the pending calls |
| LibraryReconciler.ApplyDiff | internal/controller/jellyfinapi_controller.go:256-281 | stopped anywhere, the calls made are pending ones, each once, and the last request made had failed; if it gets through, all of them, and nothing else was asked |
| LibraryReconciler.EnforceLibraryOptions | internal/controller/jellyfinapi_controller.go:309-353 | however it ends, the listed libraries of a first part of the desired entries hold their enforced options and no other library changed; it fails only when a request failed or some library's options do not decode; without an error that part is all of them, the posts are exactly those needed, and the flag says whether there were any |
| LibraryReconciler.ReconcileLibraries | internal/controller/jellyfinapi_controller.go:243-304 | a pass makes pending calls only and enforces options of desired libraries only; it fails only when a request failed or some options do not decode, and then leaves the managed names as they were; a successful one brings the server to the goal, enforces all options, records exactly the desired names, sorted, and its requests are exactly: the listing, the pending calls, a second listing if something was missing, the posts needed, and a rescan if one is asked for and something changed |
| LibraryReconciler.PassSettles | internal/controller/jellyfinapi_controller.go:243-304 | after a successful pass nothing is pending for the recorded names, and each desired library has its paths |
| LibraryReconciler.SecondOptionStep | internal/controller/jellyfinapi_controller.go:309-353 | over all libraries at once, a second option step changes nothing and posts exactly when some read-only library's declared options contradict the table |
| LibraryReconciler.NamesOf | internal/controller/jellyfinapi_controller.go:296-303 | the recorded names are those desired, sorted |
| Ownership.StepKeeps | internal/controller/statusupdate.go:32-42 | every step of either controller keeps stored and in-flight managed names within the names ever desired |
| Ownership.StepSpares | internal/controller/jellyfinapi_controller.go:243-353 | no operator step changes a library whose name was never desired |
| Ownership.PruneSafety | internal/controller/jellyfinapi_controller.go:243-353 | the same at every point of every run from a new resource, with stale reads, failures between calls and whole-status overwrites in any order |
| Ownership.UntoldSurvives | internal/controller/jellyfinapi_controller.go:243-353 | a library nobody ever asked for is the same at the end of a run as at its start, hand edits aside |
| Ownership.WriteDecidesOwnership | internal/controller/statusupdate.go:32-42 | whatever others do while a pass is in flight, after its status write a name is managed if and only if the version the pass read desired it (a finished API pass) or managed it (any other pass); so exactly these names are kept and the others forgotten |
| Ownership.StaleOverwriteLosesOwnership | internal/controller/jellyfin_controller.go:487-531 | a run in which the instance controller writes back an old status, after which a created library is no longer managed and is never pruned |
| Ownership.WriteJellyfinStatus | internal/controller/statusupdate.go:32-42 | at most one update takes effect, exactly one on success, after all those of others; it met the version they had left and replaced its status and nothing else; it fails only when every try met a conflict, or when some try after conflicts could not read or failed otherwise |
| VolumeProtocol.DriftMeaning | internal/controller/jellyfin_controller.go:314-328 | no drift is reported if and only if source and storage class are as wanted, and each kind of drift names a field that differs |
| VolumeProtocol.EnsureProvisionedNfs | internal/controller/jellyfin_controller.go:229-308 | the pass is one undisturbed run of the protocol; it ensures exactly when no volume is there or one without drift, and then source, class and mount options are those of the spec and the volume is bound to our claim; a serving volume is left as it is; a drifted idle one is being deleted; a missing claim is made for the volume |
| VolumeProtocol.WritesWhatIsWanted | internal/controller/jellyfin_controller.go:268-294 | over every run, a create or update that takes effect leaves source, class and mount options as the pass wanted them and a claim reference to our claim, keeping a stamp that is there and making none up |
| VolumeProtocol.PassIsARun | internal/controller/jellyfin_controller.go:229-308 | that pass is one of the runs of the protocol |
| VolumeProtocol.RequestSafety | internal/controller/jellyfin_controller.go:229-308 | over every interleaving and however stale the reads, the next request leaves the volume its source, its class and a UID the binder stamped on our claim; it asks to change source or class if and only if it is an update of the version read last and that version drifts |
| VolumeProtocol.NeverAsksWhenFresh | internal/controller/jellyfin_controller.go:241-294 | if the first read of each pass is up to date, no request ever asks for such a change, even when the second is stale |
| VolumeProtocol.StaleReadAsks | internal/controller/jellyfin_controller.go:241-294 | a run that asks for it, after a first read that has not seen the volume yet |
| VolumeProtocol.KeptUntilVanish | internal/controller/jellyfin_controller.go:229-308 | over every run the volume keeps source and class until it vanishes |
| VolumeProtocol.DeleteMeetsServingIff | internal/controller/jellyfin_controller.go:248-266 | at any point of any run, the unguarded delete meets a serving volume if and only if, since the read that led to it, the binder's last stamp says so and the volume has not vanished, or nobody stamped it and the read was stale over a serving one |
| VolumeProtocol.DeleteRace | internal/controller/jellyfin_controller.go:334-339 | a run in which the unguarded delete hits a volume that serves a claim |
| VolumeProtocol.FirstPassBuilds | internal/controller/jellyfin_controller.go:268-308 | under a stable spec and with reads up to date, wherever a pass stood when the old volume vanished, the first pass to begin and complete afterwards leaves one that matches the spec, mount options included, and later passes keep it |
| VolumeProtocol.BuildsIff | internal/controller/jellyfin_controller.go:241-294 | however stale its reads, a pass over a vanished volume that comes to its end builds one if and only if its first read answers nothing or a volume without drift and its second answers nothing; what it builds has the wanted source, class and mount options |
| VolumeProtocol.NoRebuildBeforeVanish | internal/controller/jellyfin_controller.go:241-266 | while the drifted volume exists, no pass rebuilds or alters it |
| Drain.DeletionMeets | internal/controller/jellyfinplugin_controller.go:219-261 | at any point of any run and however stale the reads, a delete meets every declared workload drained, except those that a read of the same pass made look settled; with distinct names, the one it deletes is undrained if and only if such a read misled the pass about it and it was not scaled then or still has pods |
| Drain.ReleaseMeets | internal/controller/jellyfinplugin_controller.go:256-260 | the finalizer goes only when no Deployment that the plugin then declares is left |
| Drain.RunIsSafe | internal/controller/jellyfinplugin_controller.go:219-261 | both hold for every request of every run |
| Drain.RecordIsTrue | internal/controller/jellyfinplugin_controller.go:225-243 | what a pass carries as misread, a read of this pass answered settled when it was not |
| Drain.RecordIsComplete | internal/controller/jellyfinplugin_controller.go:225-243 | and every such answer of this pass is carried |
| Drain.OnlyDeletesRemove | internal/controller/jellyfinplugin_controller.go:249-254 | a Deployment disappears only by a delete request that names it |
| Drain.ReadsOfTheRunDoNoHarm | internal/controller/jellyfinplugin_controller.go:225-243 | reads however stale do no harm as long as they answer what was so since the teardown began: every delete then meets all declared workloads drained |
| Drain.MisreadDeletesLive | internal/controller/jellyfinplugin_controller.go:225-254 | for any other answer that looks settled, a run that deletes a Deployment with live pods |
| Teardown.ScaleAll | internal/controller/jellyfinplugin_controller.go:224-243 | deletes nothing; if it reports no drain, all workloads of the pass are drained or misread; if nothing was spoiled, none is misread and all found are scaled to zero, and pods are reported only if some were there |
| Teardown.DeleteAll | internal/controller/jellyfinplugin_controller.go:249-254 | adds to the run only its deletes, and when it gets through none of the workloads is left |
| Teardown.Finalize | internal/controller/jellyfinplugin_controller.go:219-261 | a pass is a run of the protocol, whatever happens between its requests and however far its reads are behind: its deletes and its release are safe, what disappears they deleted, a requeue deletes nothing, and the measure never rises and falls when the pass gets through |
| Teardown.MovesKeepMeasure | internal/controller/jellyfinplugin_controller.go:219-261 | the deployment controller's moves toward the spec never raise the measure |
| Teardown.RoundLowers | internal/controller/jellyfinplugin_controller.go:219-261 | any number of spoilt passes and controller moves, then a fair spell and a pass that gets through, lower the lexicographic measure (unscaled, live replicas, Deployments, finalizer) |
| Teardown.EventuallyReleased | internal/controller/jellyfinplugin_controller.go:219-261 | so from any state the finalizer is gone after finitely many such rounds |
| Teardown.TearDown | internal/controller/jellyfinplugin_controller.go:219-261 | the requeue loop ends, under any finite number of spoilt requests, stale reads and plugin edits between two steps forward, with nothing declared left; all of it is one safe run in which deletes alone removed Deployments |
| Shell.ShellJoin | internal/plugins/shell.go:32-38 | joins the quoted tokens with spaces |
| Shell.QuoteLexes | internal/plugins/shell.go:27-29 | a quoted token is read as one word with its value wherever it stands, unless it contains NUL |
| Shell.RoundTrip | internal/plugins/shell.go:27-38 | lexing the joined line by sections 2.2.1, 2.2.2 and 2.3 of the POSIX.1-2017 Shell Command Language gives back the tokens if and only if none contains NUL |
| Shell.JoinInjective | internal/plugins/shell.go:32-38 | different token lists give different lines |
| Wrappers.InstallRuns | internal/plugins/builder.go:374-406 | every outcome of the install wrapper: what runs, the exit code, and the files afterwards, whatever the script does to them |
| Wrappers.InstallHistory | internal/plugins/builder.go:374-406 | over any pod starts, a once-only install's marker exists exactly when the script has succeeded, and after its first success it never runs again, as long as scripts leave the marker alone |
| Wrappers.InstallFailClosed | internal/plugins/builder.go:374-406 | under Fail the wrapper exits 0 exactly when every script it ran succeeded |
| Wrappers.IgnoreNeverBlocksIff | internal/plugins/builder.go:388-403 | under Ignore the wrapper always exits 0 if and only if runOnce is set; otherwise it always exits 2 without running the script |
| Wrappers.HookContract | internal/plugins/builder.go:463-505 | Ignore exits 0 always, Fail exactly when all it ran succeeded; bootstrap runs whenever it exists after firstrun (which may make or remove it) unless a fail-closed firstrun failed; firstrun runs exactly when present and unmarked, and only its success marks |
| Wrappers.HookHistory | internal/plugins/builder.go:463-505 | over any pod starts, the firstrun marker exists exactly when firstrun has succeeded, and after that it never runs again, as long as scripts leave the marker alone |
| Wrappers.MarkersApart | internal/plugins/naming.go:69-74 | different folders have different markers, of either kind, and no marker is a baked hook of any plugin |
| Wrappers.OtherMarkersStay | internal/plugins/builder.go:374-505 | no start of one plugin's wrappers makes or removes another's marker, as long as scripts leave it alone |
| Wrappers.WrappersAreTimed | internal/plugins/builder.go:374-505 | every script a wrapper runs is run under the timeout it was given, or under none if none was |
| Routing.RoutingRefinesDecision | internal/plugins/gateway.go:51-245 | for every path, header set and rule order, Gateway API precedence over the emitted rules routes as the short decision function says |
| Routing.WinnerBeats | internal/plugins/gateway.go:90-245 | no tie: the winning match strictly beats every other match the request meets |
| Routing.WinnerMeets | internal/plugins/gateway.go:51-258 | the winner is an emitted rule the request meets, and carries the decided action |
| Routing.NoWebTierUnlessSplit | internal/plugins/gateway.go:80-245 | no request reaches the web tier unless the spec has a web block whose mode is empty or `deployment` |
| Routing.TwoTiers | internal/plugins/gateway.go:101-245 | with such a block, paths under `/web` reach the web tier, except that the configuration page list always and a configuration page outside browser navigation reach the server; every other path but the root reaches the server |
| Routing.OneTier | internal/plugins/gateway.go:101-245 | without it every path but the root reaches the server |
| Routing.RootIsRedirected | internal/plugins/gateway.go:51-258 | the root is redirected to `/web/`, or with automatic login to the authorize path, by default `/sso/authorize` |
| Names.SanitizeIsLabel | internal/plugins/naming.go:113-125 | any text becomes a DNS label of at most 63 characters |
| Names.SanitizeKeepsIff | internal/plugins/naming.go:113-125 | a name is kept as it is if and only if it is a label without two dashes in a row |
| Names.SanitizeIdempotent | internal/plugins/naming.go:107-125 | sanitising twice is sanitising once |
| Names.SanitizeKeepsLetters | internal/plugins/naming.go:113-125 | an ASCII name of up to 63 characters keeps all its letters and digits, in lower case and in order |
| Names.CaseIsForgotten | internal/plugins/naming.go:113-125 | such names that differ only in case become one name |
| Names.HashedNames | internal/plugins/naming.go:113-125 | an ASCII name without a letter or digit becomes `x` and its hash, so such names stay apart as long as their hashes do |
| Names.TruncatedIsLabel | internal/plugins/naming.go:127-136 | truncation with a hash keeps a label a label |
| Names.TruncatedApart | internal/plugins/naming.go:127-136 | names cut short stay apart as long as their hashes do |
| Names.PrefixedIsLabel | internal/plugins/naming.go:143-146 | a label prefix and any name give a label |
| Names.PrefixLeads | internal/plugins/naming.go:127-146 | cut or not, a prefixed name begins with its prefix |
| PodTemplate.BuildPodTemplate | internal/plugins/builder.go:69-214 | the loops build the specified template: base storage, media folders, web content, plugins in name order |
| PodTemplate.TemplateErrIff | internal/plugins/builder.go:326-332 | there is no template if and only if some plugin's install has both a script and a command |
| PodTemplate.StorageIsMounted | internal/plugins/builder.go:69-134 | config, cache and trickplay are mounted writable at their own or the default paths, from the claim the spec names or else the derived one, and the server is told the cache path |
| PodTemplate.FoldersAreMounted | internal/plugins/builder.go:228-259 | every media folder, with the one source the API requires, is mounted at its path from that source, read-only exactly when the folder or its NFS source is |
| PodTemplate.WebIsServed | internal/plugins/builder.go:136-151 | web content in volume mode is the image at `/jellyfin-web`, read-only, with the server's command and environment pointing at it; otherwise the command is untouched |
| PodTemplate.PluginsAreMounted | internal/plugins/builder.go:69-214 | each plugin that is not copied has its image mounted read-only under `/config/plugins`, in the folder of its name and version, with its pull policy |
| PodTemplate.InitContainersAre | internal/plugins/builder.go:297-458 | every init container is some plugin's, with the config volume; stage containers run the server's image with the plugin's volume read-only, the others the install's own image, or else the server's, with the install's mounts |
| PodTemplate.OrderDoesNotMatter | internal/plugins/builder.go:69-214 | plugins with distinct names give one template in every order |
| PodTemplate.TemplateShape | internal/plugins/builder.go:69-214 | the config mount is first, every mount names a declared volume (user install mounts aside), init containers form one block per plugin in name order, each staged, then install, then hook, and every plugin has exactly the containers, volume and mount its settings call for |
| PodTemplate.BlockOrder | internal/plugins/builder.go:155-189 | one plugin's init containers are its own and in stage, install, hook order |
| PodTemplate.BlockMounts | internal/plugins/builder.go:297-458 | an init container mounts the config volume, the plugin's image or what the plugin itself declares |
| ClaimAgreement.ReconcileStorage | internal/controller/jellyfin_controller.go:110-152 | ensures only claims the spec needs; it gets through exactly when none of those is refused, and then has ensured all of them |
| ClaimAgreement.EnsuredMeaning | internal/controller/jellyfin_controller.go:110-152 | which claims those are, on the spec's fields: the server's own without an existing claim, and folders without one that ask for a provisioned NFS volume or for a new claim |
| ClaimAgreement.TemplateMounts | internal/plugins/builder.go:216-259 | the claims a template mounts are those of config, cache, trickplay and claim-backed folders |
| ClaimAgreement.ClaimsAgree | internal/controller/jellyfin_controller.go:110-152 | every mounted claim is declared by the spec or ensured in the same pass, provided mount options come with provisioning |
| ClaimAgreement.ClaimsAgreeIff | api/v1alpha1/jellyfin_storage_types.go:131-146 | where claim names do not collide, that proviso is exact: mount options do not force provisioning |
| ClaimAgreement.UnbackedClaim | api/v1alpha1/jellyfin_storage_types.go:131-146 | a spec with one such folder, whose pod mounts a claim that nobody declares or creates |
| WorkloadMedia.AppendInstanceMedia | internal/plugins/workloads.go:123-174 | the result is the hand-declared lists extended by the greedy choice of folders in order |
| WorkloadMedia.GreedyUnique | internal/plugins/workloads.go:123-174 | there is only one such choice |
| WorkloadMedia.AddedMedia | internal/plugins/workloads.go:114-174 | hand-declared entries stay an unchanged prefix, no addition repeats a name or path, an added folder is read-only exactly when not listed read-write, and a selected folder left out clashes with an earlier entry |
| Versions.ParseVersion | internal/plugins/meta.go:57-80 | accepts exactly the texts of one to four non-negative components and pads with zeros |
| Versions.WrittenIsRead | internal/plugins/meta.go:57-80 | a version written with any number of its components, the rest being zero, is read as that version |
| Versions.BlanksAreIgnored | internal/plugins/meta.go:57-80 | blanks around a text or a component do not matter |
| Versions.VersionsAreNatural | internal/plugins/meta.go:57-80 | no text denotes a version with a negative component |
| Versions.CompareVersions | internal/plugins/meta.go:82-93 | the sign of the first difference |
| Versions.OrderMeaning | internal/plugins/meta.go:82-93 | the order is antisymmetric, zero only on equal versions, and less exactly when some component is less and all before it are equal |
| Versions.VersionPreorder | internal/plugins/meta.go:57-93 | zero-padded comparison of texts is a total preorder whose ties denote one version |
| Versions.AtMostMeaning | internal/plugins/meta.go:57-93 | one text is at most another if and only if their versions are equal or the first differing component is less |
| Versions.ServerVersionFromImage | internal/plugins/meta.go:115-134 | the answer is empty or parses, and it is the tag's version exactly when that parses |
| Versions.TagFound | internal/plugins/meta.go:99-114 | the tag is found past any registry port and before any digest |
| Versions.NoTag | internal/plugins/meta.go:99-114 | a reference without a tag has none, even with a registry port |
| Versions.TagSays | internal/plugins/meta.go:115-134 | a tag says the version before its first `-`, `+` or `_`, with or without a leading `v` |
| AbiGate.BoundInstance | internal/controller/jellyfinplugin_controller.go:98-117 | the named instance, or else the first of the plugin's namespace whose selector matches its labels; none exactly when there is none or the read fails |
| AbiGate.AbiCompatible | internal/plugins/meta.go:136-149 | compatible if and only if the target is at most the server version; the error says which text did not parse |
| AbiGate.ValidateAbi | internal/controller/jellyfinplugin_controller.go:119-138 | accepts exactly when there is no target or the chosen server is new enough; each reason arises exactly in its case, and a parse error only from the plugin's own target |
| AbiGate.ImageSays | internal/plugins/meta.go:95-134 | the server version of a tagged image, whatever registry, suffix and digest, is the one its tag says, or 10.9.0.0 if that does not parse |
| AbiGate.ImageSaysWithV | internal/plugins/meta.go:95-134 | and the same with a leading `v` |
| AbiGate.DefaultParses | internal/plugins/meta.go:95-97 | the default server version is the version 10.9.0.0 |
| AbiGate.PluginStatus.Update | internal/controller/jellyfinplugin_controller.go:263-313 | the phase, flags, loaded version, ready replicas and all four conditions a pass writes, including what it leaves as it was |
| AbiGate.StatusTells | internal/controller/jellyfinplugin_controller.go:263-313 | what the recorded status tells a reader: Failed exactly when refused, Pending exactly when accepted and unbound, Loaded only with all worker replicas ready, and the conditions that go with each |
| AbiGate.RecordedBlocksIff | internal/controller/jellyfinplugin_controller.go:263-313 | the status a pass records blocks the plugin if and only if the pass refused it |
| AbiGate.BoundPlugins | internal/controller/bindings.go:55-69 | the binding plugins, sorted by name |
| AbiGate.HealthyPlugins | internal/controller/bindings.go:71-88 | those whose status records no refusal, in order |
| AbiGate.AdmittedMeaning | internal/controller/bindings.go:36-88 | what enters a template is exactly the listed plugins of the instance's namespace that name it or are matched by a selector that parses, and that are neither failed nor marked incompatible, in name order |
| AbiGateRuns.Gate | internal/controller/bindings.go:56-88 | over every run, with stale reads and guarded status writes, a template lets in exactly the plugins read that are of its namespace, name its instance or are matched by its selector, and whose latest check, as of the version read, did not refuse |
| AbiGateRuns.RefusalStands | internal/controller/jellyfinplugin_controller.go:263-313 | after a recorded refusal every template made from that version or a later one omits the plugin until its status is written again |
| AbiGateRuns.CheckCoversIff | internal/controller/jellyfinplugin_controller.go:119-138 | passing the check against one instance implies that another runs the plugin, whatever the target, if and only if the other's server is at least as new |
| AbiGateRuns.OtherInstanceUnchecked | internal/controller/jellyfinplugin_controller.go:98-117 | a run that lets a plugin into an instance too old for it, because it names a newer one |
| AbiGateRuns.OlderServerExists | internal/plugins/meta.go:95-134 | a target and two images for which that run exists: the untagged image counts as the default version |

## Left out

- VolumeProtocol.DeleteMeetsServingIff: a volume serving a claim can be deleted, because the code's delete carries no resource version; the condition is exact and `DeleteRace` is a witness.
- VolumeProtocol.FirstPassBuilds: asks for reads that are up to date; `BuildsIff` says exactly which answers build.
- VolumeProtocol.EnsureProvisionedNfs: labels, capacity, access modes and owner references are left out; growing claims (`growPVC`) is a single step.
- Ownership.PruneSafety: promises containment of managed names in the names ever desired, not equality with those last desired, because `StaleOverwriteLosesOwnership` refutes equality; `WriteDecidesOwnership` says exactly what each write leaves.
- ClaimAgreement.ClaimsAgree: requires mount options to come with provisioning; `ClaimsAgreeIff` shows the condition is exact.
- Teardown.TearDown: between two steps forward others spoil only finitely many requests, reads and spells of the controller, and the plugin is edited finitely often; without either the code does not terminate.
- Teardown.Finalize: a delete can meet live pods after a misleading read, as in the code; `Drain.DeletionMeets` is the exact condition.
- Drain.DeletionMeets: pods and status change together, workload names do not collide across plugins, and from the start of a teardown nobody but the operator scales, creates or deletes a workload; what was done before it may still be read.
- LibraryReconciler.ReconcileLibraries: assumes what the API offers, that item ids tell libraries apart and that an id is a function of the library's name; a rescan is recorded as a request and has no other effect on the model.
- LibraryReconciler.EnforceLibraryOptions: the server keeps posted options as they are; a server that rewrites them would be posted again.
- Names.SanitizeIdempotent: lower-casing and SHA-256 are parameters; only what lower-casing does to ASCII text and that the short hash is eight hexadecimal digits is used. Truncation counts bytes, which are characters after sanitising.
- Wrappers.InstallRuns: wrappers are syntax trees, not text; marker writes and `mkdir` do not fail.
- Wrappers.InstallHistory: scripts leave the marker alone; that other plugins' wrappers do is `OtherMarkersStay`.
- Shell.RoundTrip: expansions after lexing play no part, since every character stands inside single quotes or is an escaped quote.
- Routing.RoutingRefinesDecision: request paths start with a slash; hostnames, listeners and methods are the same for all rules.
- PodTemplate.BuildPodTemplate: hardware acceleration, pod security, ports, probes, resources and the container scripts' text are field filling and left out; joining of paths is concatenation.
- PodTemplate.TemplateShape: mounts that a plugin's own install settings list may name volumes that do not exist, as in the code.
- AbiGate.PluginStatus.Update: observed generation, reasons, messages and transition times of conditions are left out; replica sums do not wrap at 32 bits.
- AbiGateRuns.Gate: a deleted plugin is not followed to a new object of the same name; the pass that adds the finalizer counts as an edit that changes nothing.
- Overlay.OverlayConfig: the field tables of `DesiredServerConfig` and `DesiredBranding` are plain field filling; the overlay is proved for every set of managed keys.
- JSON text, number formats and white space: options are decoded values with opaque numbers, and equal values have equal canonical text.
- Sorting: `Ordering.SortBy` stands for Go's library sort; with equal keys its order is not claimed to be Go's.
- The first-run wizard, credentials and HTTP plumbing: what they do depends on the server.
- `reconcileWorkloads`, `pruneWorkloads`, Services, Ingress and the web tier's Deployment: create-or-update of filled-in objects.
- Events, log lines and human-readable condition text.
