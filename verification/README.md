# Layers, images and containers: a verified model

This project models the daemon-side core of the repository and proves what it keeps over every run:

- the **layer store** (`layer/`): a reference-counted, content-addressed forest of read-only layers with
  writable mounts on top, shadowed by metadata on disk;
- the **image store** (`image/store.go`) and **image deletion** and **history** over it
  (`daemon/image_delete.go`, `daemon/daemon.go`);
- the **container monitor** and the **container state** with its waiters (`container/`);
- five **algorithms**: manifest de-duplication, push order, the `ps` filter loop, the ancestor filter and
  the port ranges of `ps`.

`dafny verify dfyconfig.toml` checks everything.

## How it is built

- `ChainIds` is the address arithmetic. The digest is a parameter; only its lexical form is assumed, and
  injectivity where a lemma says so. "No archive is two digests with a blank between" is the other
  assumption, stated where it is used.
- `LayerState` is the layer store as a transition system. `Register`, `Get`, `CreateRWLayer` and
  `ReleaseRWLayer` take the locks in pieces, so each is several steps with the hold it has on a layer in
  between; every driver and metadata call carries its outcome in the step, so that any may fail.
  `LayerSafety`, `LayerRetention`, `LayerRemoval`, `LayerChains`, `WritableLayers`, `LayerShadow` and
  `LayerReload` are about its runs and about rebuilding it; `LayerLives` puts runs and restarts together,
  so that its theorems are about every state of every life of the daemon.
- `LayerStore.Store` is the same store as a class with the source's maps and loops. `LayerRegister` and
  `LayerMounts` hold the functions its methods are proved equal to, and show that an uninterrupted call is
  a run of the steps, so that the theorems about runs hold of programs that call the methods. `LayerAnswers`
  says when each call answers what and what it leaves behind, in terms of the state before the call.
- `ImageState` and `ImageWorld` put the image store on top. `ImageRuns` interleaves its steps with other
  clients of the layer store; a `Create` is two steps, since the source writes the configuration before it
  takes the lock. `ImageRaces` says exactly what a step between the two can do harm to, `ImageLives` adds
  restarts of both stores. `ImageStore.Store` is the class, and `ImageAnswers` says when its calls answer what.
- `ImageDeletion` says which images may go, `DeletionFaults` when layers get in the way, `DeletionRecords`
  what there is to report, and `ImageDelete.Daemon` deletes them; `ImageHistory` walks the prefixes of an
  image's chain.
- `MonitorRuns` runs the restart loop against arbitrary scripts of exits and stop requests, in every
  window between its steps; `WaitState` interleaves setters and waiters. `ContainerMonitor` and
  `ContainerState` are the classes.
- `ManifestLayers`, `PushOrder`, `ContainerList`, `AncestorFilter` and `PortRanges` are the algorithms.

## Where the code does less than one would expect

Each of these comes with a run or an input that shows it, and with the exact condition under which the
expected property does hold.

- A failed `Register` restores the layers, their counts and the metadata exactly if it has no parent,
  something else refers to the parent, or removing the parent fails once more
  (`FailedRegisterRestoresIff`). Otherwise the parent is a layer whose removal had failed before, and the
  clean-up takes it out (`FailedRegisterDropsLingering` is such a run). A failing `StartTransaction` leaves
  the driver layer behind.
- A driver `Get` that fails still raises the activity count. A release is refused exactly if more mounts
  were asked for than given back, and `RefusedIffUnbalanced` says exactly when that coincides with a mount
  the driver really has; `FailedMountPinsHandle` is a case where it does not.
- "Every prefix ChainID of a stored image resolves", on which `ImageHistory` relies, holds exactly for images
  whose first DiffID is not empty (`ImagesKeepLayers`). Nothing checks DiffIDs, and
  `createChainIDFromParent` passes over a leading empty one, so `Create` stores such an image
  (`EmptyDiffIDIsStored`), and its history fails if it speaks of any layer.
- `SetParent` does not take the image away from an earlier parent (`SetParentConsistent`,
  `MovedChildIsKeptTwice`). The earlier parent then keeps a conflict even after the image is gone
  (`MovedChildBlocksFirstParent`); deletion does no harm to such a store, and its theorems cover it.
- A `Create` whose layer is missing has already written the configuration (`CreateStrandsConfig`), and
  `restore` then succeeds exactly if that layer is there by then (`RestoreSucceedsIff`);
  `StrandedConfigFailsRestore` is a run after which it is not.
- A `Delete` between the two steps of a `Create` of the same image takes the configuration away. Every image
  has its configuration all the time exactly if no second step stores one whose configuration is gone by then
  (`StoredBackedIff`); every image and every `Create` under way have theirs exactly if no such `Delete`
  happens (`BackedIffNoRace`). `RaceLosesConfiguration` is a run in which it does. Layers are kept in any
  case, and a restart loses the index exactly if a stored parent lost its configuration (`RestartReadyIff`).
- A deleted image goes unrecorded, with an error in place of the record, exactly if a layer that goes with
  it cannot be removed (`Carried`, in the contract of `DeleteHelper`); `DeletionGoesUnrecorded` is such a run.
- The back-off is 100·2^k ms exactly up to k = 36, then 64 bits overflow (`DelaysDouble`). It can be reached
  (`BackoffOverflows`), but the waits before it add up to more than four centuries.
- Neither `SetStopped` nor `SetRestarting` clears `Paused`; `PausedAcrossTransitions` says of every run exactly
  when a container is paused and stopped, or paused and restarting (`PausedAndStopped` is such a run).
- `WaitStop` returns on any transition: it finds the container stopped exactly if the last transition was a
  stop (`WaitStopFinds`); `WaitStopMayFindRunning` is a run in which it was not.

## Model

| member | source | states |
|---|---|---|
| `ChainIds.FoldConcat` | layer/layer.go:228-238 | addressing a chain in one go or piece by piece gives the same ChainID |
| `ChainIds.FoldLast` | layer/layer.go:224-238 | the fold satisfies the recursion of the OCI "Layer ChainID" definition, from the top layer down |
| `ChainIds.EqualChainIDsCollide` | layer/layer.go:224-238 | two different chains of archives with one ChainID yield two contents with one digest |
| `ChainIds.EqualChainIDsEqualDiffIDs` | layer/layer.go:224-238 | without collisions, ChainIDs are equal if and only if the DiffID lists are |
| `LayerSafety.ReleaseLayerGood` | layer/layer_store.go:366-399 | giving up one counted reference keeps all counts exact and never panics |
| `LayerSafety.NextInv` | layer/layer_store.go:230-525 | every step of every operation, clean-ups included, keeps the reference-count invariant |
| `LayerSafety.RunExists` | layer/layer_store.go:230-525 | any list of steps is a run: none gets stuck |
| `LayerSafety.CountsAreExact` | layer/layer_store.go:230-525 | in every reachable state a layer's count is its handles, children, mounts and in-flight holds, and no panic was reached |
| `LayerRetention.MapIsExactlyNeeded` | layer/layer_store.go:366-399 | in a live state a layer is in the map if and only if it is below something that pins it |
| `LayerRetention.NothingLostNothingLeaked` | layer/layer_store.go:366-415 | over runs whose removals succeed, the map is exactly the ancestors-or-self of layers with a handle, a mount or a hold |
| `LayerLives.NothingElseIsKept` | layer/layer_store.go:72-415 | in every state of every life, whatever failed, the map is exactly the ancestors-or-self of layers in it that are pinned or that nothing refers to |
| `LayerRetention.ReleaseRemoves` | layer/layer_store.go:401-415 | releasing a live handle removes one contiguous child-to-parent path from the map and nothing else, and only that handle |
| `LayerRetention.ReleaseReportsRemoved` | layer/layer_store.go:345-415 | the reported layers are exactly those removed, in order, each with its identifiers and own size, and sizes add up along the chain |
| `LayerRetention.ReleasedStaysReleased` | layer/layer_store.go:401-415 | a handle once released stays dead for the rest of the run; releasing it again changes nothing, even if its ChainID was registered again |
| `LayerRemoval.ReleaseFailsIff` | layer/layer_store.go:345-415 | releasing a live handle fails exactly if the removal of a layer it is about to remove does; these are the layers up to the first that something else refers to |
| `LayerRemoval.DoomedGo` | layer/layer_store.go:366-399 | without faults exactly those layers go, and are reported |
| `LayerChains.NextChain` | layer/layer_store.go:230-317 | every step keeps each layer keyed by the ChainID computed from its archive and parent |
| `LayerLives.LayersAreContentAddressed` | layer/layer_store.go:257-296 | in every state of every life, every layer's chainID is `CreateChainID` of its root-to-top DiffIDs, and the chain is at most 125 deep |
| `LayerLives.StoredOnce` | layer/layer_store.go:303-316 | two layers in the map are the same if and only if their DiffID chains are |
| `LayerLives.LookupFindsContent` | layer/layer_store.go:319-343 | looking up the ChainID of some archives finds a layer with exactly their DiffIDs |
| `LayerLives.RegisterGivesContent` | layer/layer_store.go:230-317 | in every state of every life, a `Register` that succeeds gives a handle on a layer of the parent's DiffIDs and that of the archive, new or found |
| `LayerChains.PrefixesResolve` | layer/layer.go:224-238 | over a set of ChainIDs that has, with each prefix of a list, the one before, every prefix of a list that resolves resolves, if it does not start with an empty DiffID |
| `WritableLayers.NextWritable` | layer/mounted_layer.go:72-144 | every step keeps the activity count equal to mounts asked for minus given back, and -1 exactly for released handles |
| `LayerLives.RemovedOnlyWhenUnmounted` | layer/layer_store.go:483-525 | when the driver layer of a mount is removed, every handle made on it in this life of the daemon is released and has no mount outstanding but for failed Puts |
| `LayerLives.RefusedIffUnbalanced` | layer/mounted_layer.go:85-144 | a live handle is refused its release if and only if more mounts were asked for than given back, and exactly when that tells the truth about mounts the driver has |
| `WritableLayers.ReleasedIsAbsorbing` | layer/mounted_layer.go:106-144 | counts are never below -1, and -1 is never left |
| `WritableLayers.FailedMountPinsHandle` | layer/mounted_layer.go:119-129 | a handle with nothing mounted is refused after a Get that failed, and still after another Get and Put |
| `LayerShadow.NextShadow` | layer/layer_store.go:303-316 | every step keeps the metadata those of the layers and mounts in memory, but for names whose record holds something of a save that failed half-way |
| `LayerShadow.SavedRecordIsRight` | layer/layer_store.go:527-547 | a complete save leaves a right record if and only if it writes, or finds empty, the init layer and the parent |
| `LayerShadow.RunShadow` | layer/layer_store.go:230-547 | so the metadata mirror the store over every run |
| `LayerReload.AllListed` | layer/layer_store.go:85-94 | once every listed layer is worked off, each is counted once per child, in any order of the list |
| `LayerLives.RestartRoundTrip` | layer/layer_store.go:72-194 | from any state of any life, whatever failed or is in flight, a restart gives back the same layers with parents, sizes and identifiers, and every mount whose record is right |
| `LayerLives.RestartFull` | layer/layer_store.go:72-194 | a restart keeps counts, metadata, content addresses and writable handles in order, so that the next life starts from there |
| `LayerLives.RestartExists` | layer/layer_store.go:72-194 | from every state of every life there is a restart |
| `LayerLives.CountsAcrossLives` | layer/layer_store.go:72-525 | in every state of every life a layer's count is its handles, children, mounts and holds, and no panic was reached |
| `LayerReload.RestartCounts` | layer/layer_store.go:85-100 | a rebuilt layer is counted for its children and mounts |
| `LayerLives.RestartRestoresCounts` | layer/layer_store.go:72-194 | if no save failed in any life, all mounts come back and counts are children plus mounts |
| `LayerRegister.FailedRegisterRestores` | layer/layer_store.go:230-317 | if something else refers to the parent, a failed `Register` leaves everything as it was but for one driver layer, and says exactly when that stays behind |
| `LayerRegister.FailedRegisterRestoresIff` | layer/layer_store.go:230-317 | a `Register` that fails in any way restores layers, counts and metadata if and only if there is no parent, something else refers to it, or its removal fails again; otherwise the parent is gone |
| `LayerRegister.FailedRegisterDropsLingering` | layer/layer_store.go:243-251 | a run in which a failed `Register` removes its parent: a release whose driver removal fails, then a `Register` on top that fails |
| `LayerRegister.RegisterIsRun` | layer/layer_store.go:230-317 | an uninterrupted `Register` is the run of its five steps |
| `LayerRegister.RegisterInv` | layer/layer_store.go:230-317 | so it keeps the invariant of the transition system |
| `LayerRegister.GetIsRun` | layer/layer_store.go:336-343 | an uninterrupted `Get` is the run of its two steps |
| `LayerRegister.GetReleaseRestores` | layer/layer_store.go:336-415 | a `Get` and the `Release` of its handle leave the store as it was |
| `LayerAnswers.RegisterAnswers` | layer/layer_store.go:25-317 | when `Register` answers what: no such parent, too deep exactly from 125 layers on, success exactly if the driver layer is made and filled and the layer is there already or can be committed, and failure otherwise |
| `LayerAnswers.RegisterAdds` | layer/layer_store.go:257-317 | a new layer enters the map under its ChainID, on the parent asked for, with the size and driver layer it was prepared with; its metadata say the same, and the handle is new |
| `LayerAnswers.RegisterFinds` | layer/layer_store.go:303-307 | a layer that is there gets one more handle and count, and of the driver layer just made nothing is left unless its removal fails |
| `LayerAnswers.RegisteredIsThere` | layer/layer_store.go:230-317 | in either case the handle is live, on a layer in the map with the ChainID of the archive on the parent |
| `LayerAnswers.GetAnswers` | layer/layer_store.go:319-343 | `Get` finds exactly the ChainIDs in the map and gives a new live handle on that layer |
| `LayerAnswers.ReleaseAnswers` | layer/layer_store.go:401-415 | `Release` accepts exactly live handles; another one is not retained if its ChainID is in the map and passed over if not, and changes nothing |
| `LayerAnswers.ReleaseDisk` | layer/layer_store.go:345-399 | a release takes the driver layers of exactly the layers that leave the map; if it fails, one layer stays uncounted, without its driver layer if only its metadata could not be removed |
| `LayerMounts.CreateRWIsRun` | layer/layer_store.go:417-470 | an uninterrupted `CreateRWLayer` is the run of its three steps |
| `LayerMounts.ReleaseRWIsRun` | layer/layer_store.go:483-525 | an uninterrupted `ReleaseRWLayer` is the run of its two steps |
| `LayerMounts.CreateRWInv` | layer/layer_store.go:417-470 | so it keeps the invariant, whichever of its steps fails |
| `LayerMounts.ReleaseRWInv` | layer/layer_store.go:483-525 | so it keeps the invariant, whichever of its steps fails |
| `LayerAnswers.CreateRWAnswers` | layer/layer_store.go:417-470 | when `CreateRWLayer` answers what |
| `LayerAnswers.CreatedRWIsThere` | layer/layer_store.go:417-470 | the mount is there under its name, on the parent, with its driver layers, and the caller gets a new handle that nothing was mounted with |
| `LayerAnswers.FailedCreateRWRestores` | layer/layer_store.go:417-470 | a call that fails leaves the store as it was, if something refers to the parent, but for exactly the driver layers made so far and its own record |
| `LayerAnswers.ReleaseRWAnswers` | layer/layer_store.go:483-525 | when `ReleaseRWLayer` answers what, in terms of live handles, driver calls made and failures |
| `LayerAnswers.DropMountEffect` | layer/layer_store.go:483-525 | what it leaves: the handle is dead; with the last one name, record, driver layer and init layer are gone, up to the removal that fails, and only then the parent is given back |
| `LayerAnswers.ActivityEffect` | layer/mounted_layer.go:119-144 | a Get or Put on a live handle is booked as such, made or failed; on a released one, and a Put on a balanced one, nothing is |
| `LayerStore.Store.constructor` | layer/layer_store.go:72-103 | whatever order the metadata are listed in, the store holds exactly the loadable layers and mounts, counted for children and mounts |
| `LayerStore.Store.LoadLayer` | layer/layer_store.go:105-151 | succeeds if and only if the metadata of all layers below are there; adds only those layers, uncounted |
| `LayerStore.Store.LoadMount` | layer/layer_store.go:153-194 | the mount comes back if and only if its parent can be loaded, counted on it |
| `LayerStore.Store.Register` | layer/layer_store.go:230-317 | does what the sequential call of `RegisterAnswers`, `RegisterAdds` and `RegisterFinds` does, result and all error paths, and keeps the invariant |
| `LayerStore.Store.Get` | layer/layer_store.go:319-343 | a fresh counted handle, or nothing and no change |
| `LayerStore.Store.ReleaseLayer` | layer/layer_store.go:366-399 | the loop computes the recursive release, panics and failures included |
| `LayerStore.Store.Release` | layer/layer_store.go:401-415 | a live handle gives up its reference, any other one changes nothing; the invariant is kept |
| `LayerStore.Store.CreateRWLayer` | layer/layer_store.go:417-470 | a mount and a handle on it, or the parent is given back; the invariant is kept |
| `LayerStore.Store.GetRWLayer` | layer/layer_store.go:472-481 | a new handle on the mount of that name, if there is one |
| `LayerStore.Store.ReleaseRWLayer` | layer/layer_store.go:483-525 | the handle, the mount with its last handle, and its hold on the parent; the invariant is kept |
| `LayerStore.Store.MountLayer` | layer/mounted_layer.go:119-129 | counts the mount unless the handle was released |
| `LayerStore.Store.UnmountLayer` | layer/mounted_layer.go:131-144 | counts back unless not mounted or released |
| `ImageState.DeleteEffect` | image/store.go:200-225 | `Delete` removes exactly the image and the parent entries of its children, and keeps the index consistent |
| `ImageState.SetParentConsistent` | image/store.go:227-236 | the index stays consistent if and only if the parent is unknown, or the image is stored and has no other parent |
| `ImageState.MovedChildIsKeptTwice` | image/store.go:227-236 | an image moved to another parent stays among the children of both |
| `ImageState.RestoreRebuilds` | image/store.go:63-104 | a restart gives the same children, and the same images if and only if no configuration was left behind |
| `ImageRuns.LayerTrace` | image/store.go:106-225 | what image operations and other clients do to the layer store is an ordinary run of it |
| `ImageRuns.NextSiteInv` | image/store.go:106-236 | every step, the two of `Create` apart, keeps one private handle per image, on the layer with the ChainID of the configuration it was made from |
| `ImageRuns.SiteRunExists` | image/store.go:106-236 | any list of steps is a run: none gets stuck |
| `ImageRuns.CreateIsRun` | image/store.go:106-165 | an uninterrupted `Create` is the run of its two steps |
| `ImageLives.ImagesKeepLayers` | image/store.go:63-225 | in every state of every life and whatever is interleaved, every prefix ChainID of a stored image resolves, to a layer something refers to, if and only if its first DiffID is not empty; no archive being the text of a link between its DiffIDs |
| `ImageLives.ImagesWereWritten` | image/store.go:106-165 | a stored image was made from an accepted configuration, which is the one on disk if any |
| `ImageLives.DigestsNeedNoMore` | layer/layer.go:224-238 | for DiffIDs that are digests it is enough that no archive is two digests with a blank between |
| `ImageLives.EmptyDiffIDIsStored` | image/store.go:106-165 | `Create` stores an image whose first DiffID is empty, and the first prefix resolves to nothing |
| `ImageRaces.NextConsistentIff` | image/store.go:106-236 | a step keeps the children index consistent if and only if it gives no second parent and no parent to a missing image, and stores no image without its configuration |
| `ImageRaces.IndexConsistentIff` | image/store.go:63-236 | over a run, children are the exact inverse of stored parents and nothing dangles, all the time, if and only if every step is of that kind |
| `ImageRaces.IndexStaysConsistent` | image/store.go:106-236 | so after a run of such steps the index is consistent |
| `ImageRaces.BackedIffNoRace` | image/store.go:129-165 | over a run, every image and every `Create` under way have their configuration all the time if and only if no `Delete` of an image falls between the two steps of a `Create` of it |
| `ImageRaces.StoredBackedIff` | image/store.go:129-165 | over a run, every image has its configuration all the time if and only if no second step of a `Create` stores one whose configuration is gone by then |
| `ImageRaces.BackedWorld` | image/store.go:106-236 | as long as every image has its configuration, each is linked to the layer of the configuration on disk |
| `ImageRaces.FinishBackedIff` | image/store.go:136-165 | the second step of `Create` stores no image without configuration if and only if it is still there, or nothing is stored |
| `ImageRaces.RaceLosesConfiguration` | image/store.go:129-221 | a run that ends with an image stored and its configuration gone |
| `ImageRaces.RunReadyForDeletion` | image/store.go:106-236 | in every run, moves and races included, images hold their layers and every stored parent is an image that has the child in its index |
| `ImageWorld.CreateStrandsConfig` | image/store.go:129-151 | a configuration is left without image if and only if its layer is missing after it was written |
| `ImageAnswers.CountsLayered` | image/store.go:120-125 | the count of non-empty history entries is the number of positions that made a layer |
| `ImageAnswers.CreateAnswers` | image/store.go:106-165 | `Create` answers the digest of the configuration exactly if it can be read, speaks of no more layers than it has, can be written, and the image is stored already or its layer can be found; it rejects exactly those that cannot be read or speak of too many |
| `ImageAnswers.CreateStores` | image/store.go:129-165 | after success the image is stored, as it was or with a new handle on the layer of its DiffIDs; other images keep what they have |
| `ImageAnswers.CreateLeaves` | image/store.go:106-165 | otherwise images, parents and layers are as before, and the configuration is on disk exactly if it could be written |
| `ImageAnswers.DeleteAnswers` | image/store.go:200-225 | `Delete` knows exactly the stored images; the handle of one with a layer is released, and no other |
| `ImageAnswers.SetParentAnswers` | image/store.go:227-236 | `SetParent` succeeds exactly if the parent is an image and the child's configuration is stored; the child joins the parent's children whenever the parent is an image |
| `ImageStore.Store.Restore` | image/store.go:63-104 | succeeds if and only if the layer of every readable configuration is there; makes exactly their images, linked and with the children of the metadata |
| `ImageStore.RestoredAre` | image/store.go:63-90 | the restored images are those of the configurations under their own digest that can be read |
| `ImageStore.Store.FillChildren` | image/store.go:92-101 | the second pass makes children the inverse of the parents among the images |
| `ImageStore.Store.Create` | image/store.go:106-165 | does what the sequential call of `CreateAnswers`, `CreateStores` and `CreateLeaves` does, and keeps every image linked to its layer |
| `ImageStore.Store.Delete` | image/store.go:200-225 | does what the specification says, with the release of the layer, and other images hold theirs |
| `ImageStore.Store.SetParent` | image/store.go:227-236 | does what the specification says |
| `ImageLives.ImagesSurviveRestart` | image/store.go:47-104 | a restart makes an image of every configuration, so the same images if and only if images and configurations match; from a consistent index, with the same children |
| `ImageLives.RestoreSucceedsIff` | image/store.go:63-90 | after any lives the layer of every stored image that has its configuration is there, so `restore` succeeds if and only if the layers of configurations left without image are |
| `ImageLives.StrandedConfigFailsRestore` | image/store.go:129-151 | a run after which a restart fails on a configuration without its layer |
| `ImageLives.RestartReadyIff` | image/store.go:63-104 | a restart keeps every stored parent an image with the child in its index if and only if each of them has its configuration |
| `ImageHistory.PeekLeavesNoTrace` | layer/layer_store.go:336-415 | getting and releasing a layer that something refers to leaves counts and map as they were |
| `ImageHistory.StoredImagesAreHealthy` | image/store.go:106-225 | every image stored with its configuration, in any life, has what the history needs, if no archive is the text of a link between its DiffIDs |
| `ImageHistory.ImageHistory` | daemon/daemon.go:1197-1268 | no count changes and there are never too many layers; the history is there if and only if it speaks of no layer or the first DiffID is not empty, with every prefix found, rows newest first with the right sizes, naming the image and its ancestors |
| `ImageHistory.ReadHistory` | daemon/daemon.go:1205-1238 | the loop behind it |
| `ImageHistory.FillNames` | daemon/daemon.go:1240-1266 | rows are named up the parents, to the first image without a parent that can be read |
| `ImageHistory.LineageClimbs` | daemon/daemon.go:1240-1266 | the images named start with the one asked for, each next one is the stored parent, and they end where there are enough rows or a parent is missing or cannot be read |
| `ImageDeletion.ConflictIffNotDeletable` | daemon/image_delete.go:315-363 | there is a conflict if and only if the documented conditions for deletion fail |
| `ImageDeletion.ConflictIsFirst` | daemon/image_delete.go:315-363 | which conflict is reported: children, a running container, a reference, a stopped container, in this order, the last two only without force |
| `ImageDeletion.DanglingConflictIsUse` | daemon/image_delete.go:256-276 | a conflict on a dangling image is one of use, so quiet deletions report none |
| `ImageDeletion.ClimbDeletes` | daemon/image_delete.go:256-306 | deleting an upward path removes exactly its images, orphans nobody and takes no other child from anyone, moved images or not |
| `ImageDeletion.ClimbIsUpward` | daemon/image_delete.go:256-306 | in terms of the store before: parent after child, no other children, no running container, stopped ones only at the forced target, no references above it |
| `ImageDeletion.MovedChildBlocksFirstParent` | daemon/image_delete.go:315-323 | the first parent of an image that was moved keeps a conflict after the image is gone |
| `DeletionFaults.DeleteStored` | image/store.go:200-225 | deleting a stored image removes it in any case and fails if and only if a layer that goes with it cannot be removed |
| `DeletionFaults.DeletionGoesUnrecorded` | daemon/image_delete.go:284-295 | a run after which a deletion goes unrecorded |
| `DeletionRecords.DeleteReports` | daemon/image_delete.go:284-295 | the layers reported for an image are exactly those that leave the map with it, each once |
| `DeletionRecords.ReportTells` | daemon/image_delete.go:207-306 | a report names each reference taken away and each layer that left the map exactly once and nothing else of the kind, references before images, and images in the order of their deletion |
| `ImageDelete.Daemon.RemoveAllReferences` | daemon/image_delete.go:207-224 | only references to the image go, and all of them unless the store fails; exactly those that went are recorded, each once |
| `ImageDelete.Daemon.RemoveImageRef` | daemon/image_delete.go:94-100 | the reference goes and is recorded, or neither |
| `ImageDelete.LeftTells` | daemon/image_delete.go:94-127 | with a reference, another one goes exactly if it is a digest of the same image and the last tag went |
| `ImageDelete.ReadyTells` | daemon/image_delete.go:136-160 | for an ID, a reference goes first exactly if it is the only one to the image |
| `ImageDelete.Daemon.DeleteHelper` | daemon/image_delete.go:256-306 | terminates; deletes an upward path as long as pruning can make it, cut short exactly at the first image whose layers cannot be removed; a conflict stops everything, is the first there is, and is reported if and only if not quiet; records the references that went, and then each image with exactly its layers directly after it |
| `ImageDelete.Daemon.DeleteByReference` | daemon/image_delete.go:63-135 | untags, and if no reference is left deletes what there is to delete from the target upwards; when it answers what; never reports a conflict; the records are exactly the references that went, then each image with the layers that left the map |
| `ImageDelete.Daemon.DeleteByID` | daemon/image_delete.go:136-163 | resolves the ID as the daemon does, and deletes what there is to delete from the target upwards; a conflict is reported if and only if the image may not go, and leaves everything as it was; the records are exactly the references that went, then each image with the layers that left the map |
| `MonitorRuns.TurnSane` | container/monitor.go:165-238 | one turn of the loop, with stop requests in any window, keeps the invariant |
| `MonitorRuns.OnFailureIsBounded` | container/monitor.go:142-301 | on-failure with maximum n > 0 runs the process at most n + 1 times |
| `MonitorRuns.OnFailureBoundIsMet` | container/monitor.go:142-301 | a process that keeps failing is run exactly n + 1 times |
| `MonitorRuns.StopIsHeeded` | container/monitor.go:110-239 | at most one run starts after the first stop request, and stopChan is closed once |
| `MonitorRuns.BackoffFits` | container/monitor.go:246-272 | a delay fits into 64 bits if and only if there were at most 36 short runs |
| `MonitorRuns.DelaysDouble` | container/monitor.go:246-272 | each wait is 100·2^k ms, k the short runs in a row, if and only if k is at most 36 |
| `MonitorRuns.BackoffOverflows` | container/monitor.go:246-272 | a run of 37 short runs in a row, whose last wait is not 100·2^37 ms |
| `MonitorRuns.AlwaysGoesOn` | container/monitor.go:276-301 | under always and unless-stopped the loop ends only on a stop request, or if logging or the first start fails |
| `MonitorRuns.TurnAnswers` | container/monitor.go:165-301 | what one round leads to: logging failed, cannot start with exit code 127, 126 or -1, going on exactly if it ran, nobody asked to stop and the policy calls for another run, or over |
| `MonitorRuns.TurnEvents` | container/monitor.go:165-301 | every event of a round, in order, with the wait it ends in, and whether it counts as stopped by hand |
| `MonitorRuns.RunsAgainIff` | container/monitor.go:142-301 | over every script and policy, the process is run once more after k rounds exactly if each of them went on; the monitor is still going exactly if all did |
| `MonitorRuns.NoRunsOnce` | container/monitor.go:276-301 | under no the process is run once at most, and the monitor is not going after a round |
| `ContainerMonitor.ContainerMonitor.ExitOnNext` | container/monitor.go:110-121 | the channel is closed by the first request only |
| `ContainerMonitor.ContainerMonitor.ShouldRestart` | container/monitor.go:276-301 | again if and only if nobody asked to stop and the policy is always, unless-stopped, or on-failure after a failure with no maximum or not more failures than it; sets the flag for a manual stop |
| `ContainerMonitor.ContainerMonitor.Start` | container/monitor.go:142-239 | the loop computes the run that `RunsAgainIff` and `TurnEvents` are about, and keeps the bounds on runs and closes |
| `WaitState.NoDoubleClose` | container/state.go:183-233 | no channel is closed twice and the current one is open |
| `WaitState.NoLostWakeups` | container/state.go:126-157 | a waiter blocks only on the current channel, and can go on if and only if a transition happened since it looked |
| `WaitState.TransitionWakes` | container/state.go:126-157 | a transition after a waiter looked lets it go on, whatever else happens meanwhile |
| `WaitState.FlagsAgree` | container/state.go:183-233 | restarting implies running; a process id means running and not restarting |
| `WaitState.RunningIffLatest` | container/state.go:183-233 | after any run the container is not running if and only if there was no transition or the last one was a stop |
| `WaitState.WaitStopFinds` | container/state.go:144-157 | a `WaitStop` that wakes finds the container stopped if and only if the last transition was a stop, and answers with its exit code |
| `WaitState.WaitRunningFinds` | container/state.go:126-142 | a `waitRunning` that wakes finds a process if and only if the last transition was a start, and answers with the pid passed to it |
| `WaitState.WaitFindsAtOnce` | container/state.go:126-157 | a wait that need not block answers for the last transition before it |
| `WaitState.PausedAcrossTransitions` | container/state.go:183-233 | after any run a container is paused and stopped if and only if the last word on pausing was a pause and the last transition a stop, and paused and restarting if and only if that was a restart |
| `WaitState.PausedAndStopped` | container/state.go:203-211 | a run that ends paused and stopped |
| `WaitState.WaitStopMayFindRunning` | container/state.go:144-157 | a run in which `WaitStop` returns while the container is running |
| `WaitState.StateStringIsValid` | container/state.go:74-106 | the name of a state is a valid one, and each name is given exactly for its flags |
| `WaitState.NameAfter` | container/state.go:74-233 | what a container is called after any run, read off its steps |
| `WaitState.StateRemembers` | container/state.go:183-275 | after any run: started if and only if there was a start, dead if and only if declared so, and the error of the last failure since the last start |
| `WaitState.WaitBlocks` | container/state.go:126-157 | a wait that has to block is blocked from then on, for what it asked for |
| `WaitState.TimeoutTells` | container/state.go:108-157 | a wait that times out is told so and is not blocked any more |
| `WaitState.WaitersAreApart` | container/state.go:108-157 | steps of others leave a waiter and its answer alone |
| `ContainerState.ContainerState.SetRunning` | container/state.go:183-193 | the new state, channels and flags in order |
| `ContainerState.ContainerState.SetStopped` | container/state.go:203-211 | the new state, channels and flags in order |
| `ContainerState.ContainerState.SetRestarting` | container/state.go:223-233 | the new state, channels and flags in order |
| `ManifestLayers.Manifest.FixManifestLayers` | distribution/pull_v2.go:669-713 | succeeds if and only if IDs are valid, contiguous and chained to a base without parent, and each way to fail has its exact condition; on success exactly the last entry of each run of IDs survives, in both lists |
| `ManifestLayers.CheckDuplicates` | distribution/pull_v2.go:690-701 | accepts if and only if an ID comes back only directly after itself |
| `ManifestLayers.SurvivorsAligned` | distribution/pull_v2.go:704-707 | layers and history take their entries from the same places |
| `ManifestLayers.FixedManifestIsChain` | distribution/pull_v2.go:669-713 | what is left has distinct IDs, each the parent of the entry before, and a base without parent |
| `ManifestLayers.EveryIDSurvives` | distribution/pull_v2.go:704-707 | no ID is lost |
| `PushOrder.UnseenJoins` | distribution/push_v1.go:237-263 | the dependencies of a tag not seen before can be appended: each ChainID once, after its parent and naming its V1 ID |
| `PushOrder.Pusher.GenerateDependencyImages` | distribution/push_v1.go:237-263 | yields exactly the unseen layers from the base up, and the image of the top one |
| `PushOrder.Pusher.ImageListForTag` | distribution/push_v1.go:203-235 | the list stays well ordered, with the top image after its parent dependency |
| `PushOrder.Pusher.GetImageList` | distribution/push_v1.go:168-201 | succeeds if and only if there is a tag and every tagged image can be listed; dependencies are exactly the layers below tagged images, each once and after its parent, each tagged image is there once on its own layer, and all carry the V1 IDs of their ChainID or image and of the layer below |
| `ContainerList.ListContext.IncludeContainer` | daemon/list.go:232-308 | exactly when a container is included, passed over or the end, and what becomes of the before-container; each answer is what the pipeline does |
| `ContainerList.ListContext.ReduceContainers` | daemon/list.go:93-133 | the rows are those of the containers at the chosen positions, in order: matching, after the first match with the before-ID, visible, before the one with the since-ID, with exit code, status and image as asked, and within the limit; it fails exactly if the reducer fails on one of them |
| `ContainerList.PipelineShowsChosen` | daemon/list.go:93-308 | filtering stage by stage gives exactly the containers at the chosen positions |
| `AncestorFilter.ImageFilter.Populate` | daemon/list.go:452-459 | adds exactly the image and its descendants and keeps the set closed; terminates if the descendants not marked yet do not run in circles |
| `AncestorFilter.ImageFilter.FoldAncestors` | daemon/list.go:184-202 | the set is the union over all ancestors that can be looked up |
| `PortRanges.LessTotal` | api/common.go:39-53 | `Less` is a strict total order, all fields together |
| `PortRanges.LessMeans` | api/common.go:39-53 | private port first, then address, public port and protocol |
| `PortRanges.StringLessMeans` | api/common.go:39-53 | strings are compared where they first differ, a proper beginning being smaller |
| `PortRanges.SortIsUnique` | api/common.go:39-67 | so any sort gives the same list |
| `PortRanges.DisplayablePorts` | api/common.go:58-119 | the text of the ranges of each key's sorted ports, first those followed by a gap as the gaps come up, then the last of each key as the keys come up, and then of the other mappings in order |
| `PortRanges.PortsAreConserved` | api/common.go:58-99 | expanding the ranges of a key gives back its ports, as often as they were given |
| `PortRanges.RangesAreMaximal` | api/common.go:58-99 | without duplicates the ranges of a key are disjoint and could not be joined |
| `PortRanges.MappingsConserved` | api/common.go:71-75 | the other mappings are exactly the ports with an address that are published under another number, as often as given |
| `PortRanges.MappingsSorted` | api/common.go:71-98 | they come in the order of the ports |
| `PortRanges.ClosedAtGaps` | api/common.go:86-92 | each range shown before the last ones is the one a gap follows |
| `PortRanges.GapsInOrder` | api/common.go:86-92 | and they come in the order of all the gaps |
| `PortRanges.KeysComeUp` | api/common.go:80-97 | every key is listed once, in the order in which they come up |
| `PortRanges.GroupShowsKey` | api/common.go:102-119 | the text of a range shows address and protocol of its ports, if neither holds a slash |
| `PortRanges.KeysTellApart` | api/common.go:69-78 | keys are equal if and only if address and protocol are, if neither holds a slash |
| `PortRanges.MappingShows` | api/common.go:73-73 | a mapping shows address and public port, and the private port and protocol they lead to |
| `PortRanges.ItoaTells` | api/common.go:110-117 | numbers are written in decimal and can be read back |
| `PortRanges.JoinedConcat` | api/common.go:98-99 | items are put together with commas between |

## Left out

- Tar assembly, gzip, tar-split, digests and file-system paths: the digest is a parameter, metadata are maps, and the archive stands in for the tar-split data.
- A metadata removal that fails leaves the metadata intact; directories removed in part are not modelled.
- Integer widths, but for the delay of the monitor: sizes, counts and ports are unbounded.
- Migration entry points (`layer/migration.go`): they skip the depth check and add no property.
- LayerRetention.NothingLostNothingLeaked: is about the first life and removals that succeed; NothingElseIsKept says what is in the map otherwise.
- The image store's calls into the layer store are not interrupted by other image operations, which its lock sees to; failures of its own backend beyond the write of a configuration are not modelled; `Create` on a configuration without RootFS, which the source does not survive, is a rejection.
- The index of ID prefixes and lookup by name (`Search`, `isImageIDPrefix`, and of `GetImageID` all but the full ID): image deletion starts from a reference, a full ID or an ID found by its beginning.
- ImageDelete.Daemon.DeleteHelper: asks that every stored parent is an image with the child in its index, which every run keeps and `RestartReadyIff` says exactly when a restart does; containers do not change while an image is being deleted, and events are not modelled.
- LayerLives.RemovedOnlyWhenUnmounted: is about the handles of one life; what the driver still has mounted from an earlier one is not known to the store.
- `startSignal`, log events and the reset of streams in the monitor; timers are the delays they are asked for.
- AncestorFilter.ImageFilter.Populate: asks for a rank of the unmarked descendants, because the recursion does not end on a cycle of them.
- The windows variants of RootFS and of the base-layer check in `fixManifestLayers`.
- Network, exec driver, volumes, registry clients, authentication, CLI and error tables: plumbing over other libraries.
