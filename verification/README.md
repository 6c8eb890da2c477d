# NeL resource managers, schedulers, caches and protocols

A verified model of the parts of NeL and NeLNS whose correctness spans many functions: the asynchronous
texture manager, the cloud scheduler, the channel mixer, the traversals of the cluster graph, the packing
of coarse mesh textures, animation header compression, Bezier subdivision and the intrusive lists
of the 3D engine; the naming service and the request accounting of the admin executor service.

`dafny verify dfyconfig.toml` checks everything.

## How it is modelled

* **Objects that change in place** are classes whose fields are those of the source. Most of them are
  proved against a value: `Value()` gives the fields as a datatype, each method is proved to compute a
  function on it, and what the source promises is proved about those functions and about whole runs.
  What such a function means for a caller is stated on the fields, by laws that do not name it.
  The clusters and the intrusive lists stay on the heap throughout, since cycles and back pointers are the
  point there.
* **Pointers into a table** (texture entries, channels, list iterators of the cloud queue) are named by
  slot id, channel id and frame number: each is reset before its slot is used again.
* **The environment** is nondeterministic: the loader thread ends any load it holds at any time between
  two calls, the driver's answers and the pictures built by the HLS manager are arbitrary, clocks are
  parameters, geometry (`clipPyramid`, `clipRay`, `isInFront`) is uninterpreted.
* **Floats are reals**, sizes are unbounded. Sixteen-bit channel ids and service ids are truncated or
  bounded as in the source.
* **History** (calls made so far, uploads that have ended, ids used) is kept in ghost fields or in fields
  that no decision reads.

| files | subject |
|---|---|
| `texture_upload`, `texture_lod`, `texture_state`, `texture_runs`, `texture_policy`, `texture_records`, `texture_manager` | asynchronous textures |
| `cloud_tokens`, `cloud_scheduler`, `cloud_scape` | cloud scheduler |
| `channel_mixer` | channel mixer |
| `cluster_graph`, `cluster_ray`, `cluster_clip` | cluster graph |
| `texture_packing`, `bitmap_expand`, `texture_atlas` | texture atlas |
| `naming_state`, `naming_runs`, `naming_service` | naming service |
| `admin_requests`, `admin_runs`, `admin_executor` | admin executor service |
| `animation_header`, `animation_set` | animation header compression |
| `bezier_patch`, `fast_ptr_list` | Bezier patches, intrusive lists |

## What the code does not do

The code was followed where it differs from what one would expect or from its own comments. Each point is
a lemma.

* The LOD policy counts the pivot twice (`TextureLodPolicy.StopsExactly`), so it can leave the most
  important LOD out (`TexturePolicyRuns.StopsTooEarly`).
* The atlas never tries the last row and column, and a texture larger than the atlas is accepted and cut off,
  since the difference of the sizes is unsigned (`TexturePacking.SingleTexture`, `PackedApart`).
* A service that provides an id in use is registered under it (`NamingRuns.RegisterDoublesId`); the
  release of an id at lines 427-428 is after both returns, so an id never goes offline
  (`NamingRuns.OnlineOnlyGrows`).
* Services that are never told of an unregistration are waited for all the same
  (`NamingRuns.AwaitedWereTold`).
* An answer to a request owed twice unbalances it (`AdminRuns.ViewBalancesIff`), which a request with two
  destinations causes exactly if they send it to a common slot (`AdminExecutors.DistinctExactly`,
  `TwoDestinationsMayDouble`).
* A name with no alias, or with no short name and an alias that nobody has, such as "x/", finds the blank slots
  and trips the assertion on the service id (`AdminExecutors.BlankSlotsFound`).
* A second track under one name is compressed under id 0 and can then answer for that channel
  (`AnimationHeaders.StrayTrackAnswers`, `CompressionIsSafeInAnyOrder`).
* `animation.h` announces an assertion on 65536 channels that the code does not make; the exact condition
  is in `AnimationHeaders.CompressionIsSafe`. `algo.h` says that `searchLowerBound` returns the first element
  not above the key; it returns the last.

## Model

| member | source | states |
|---|---|---|
| `TextureUpload.CutLine` | nel/src/3d/async_texture_manager.cpp:513-533 | A mipmap that does not fit is cut after at least one line and inside the mipmap; the rectangle passes the size left only when fewer than four lines fitted, and is then at most four lines high |
| `TextureUpload.UploadTexturePart` | nel/src/3d/async_texture_manager.cpp:453-551 | One call sends consecutive line ranges from the cursor on, creates the driver texture exactly when it starts, is done if and only if all that remains fits the frame, else uploads at least one line; the budget is passed only by the last rectangle, of four lines or less |
| `TextureUpload.ChainUploadsOnce` | nel/src/3d/async_texture_manager.cpp:501-548 | A chain of line ranges from the start uploads each line before its end once, and no other line |
| `TextureUpload.RunChains` | nel/src/3d/async_texture_manager.cpp:453-551 | The ranges of any sequence of calls for one texture form one gapless chain, and the driver texture is created once |
| `TextureUpload.RunProgress` | nel/src/3d/async_texture_manager.cpp:453-551 | A texture takes at most one call more than it has lines |
| `TextureUpload.UploadIsComplete` | nel/src/3d/async_texture_manager.cpp:453-551 | Main result: whatever the budgets of the frames, a finished upload sent every line of every mipmap exactly once, created the driver texture once, and took finitely many calls (bound given) |
| `TextureUpload.LinesAreWholeBytes` | nel/src/3d/texture_file.cpp:200-217 | No bits are lost in the weight of a line: textures whose sides are not powers of two are replaced when they are loaded |
| `TextureUpload.LinesWeightIs` | nel/src/3d/async_texture_manager.cpp:501-517 | So the weight of n lines is exact: eight bits a byte, and n times the weight of one |
| `TextureLodPolicy.ChooseLod` | nel/src/3d/async_texture_manager.cpp:705-768 | The pivot is the most important LOD whose suffix no longer fits; the choice is the most important missing LOD from the pivot on, or the least important loaded one before it; the assertion of line 750 holds |
| `TextureLodPolicy.PivotUnique` | nel/src/3d/async_texture_manager.cpp:705-730 | The pivot is determined by the sizes, the base and the budget |
| `TextureLodPolicy.StopsExactly` | nel/src/3d/async_texture_manager.cpp:711-768 | The policy does nothing if and only if no unwanted LOD is loaded and the missing wanted ones weigh no more than a loaded pivot, which lines 716 and 728 count twice |
| `TextureLodPolicy.BudgetKept` | nel/src/3d/async_texture_manager.cpp:705-768 | When the policy stops, the LODs loaded pass the budget by at most the size of the pivot |
| `TextureLodPolicy.SortKeepsIds` | nel/src/3d/async_texture_manager.cpp:702 | Sorting the LODs loses and repeats none |
| `TextureLodPolicy.OrderUnique` | nel/src/3d/async_texture_manager.cpp:702 | With distinct weights the order of the LODs is determined |
| `TextureState.AddedKeepsInv` | nel/src/3d/async_texture_manager.cpp:152-230 | Adding a use of a texture, new or known, keeps the invariant of the slot table, name index, waiting list, free list, LOD, loader and sizes |
| `TextureState.NewTextureLoads` | nel/src/3d/async_texture_manager.cpp:189-213 | A new texture is held by the loader, unless the HLS manager has it: then it is ready to be coloured |
| `TextureState.DeletedKeepsInv` | nel/src/3d/async_texture_manager.cpp:234-300 | Deleting a texture in any phase keeps the invariant |
| `TextureState.ReleasedKeepsInv` | nel/src/3d/async_texture_manager.cpp:304-333 | Releasing a use, the last one or not, keeps the invariant |
| `TextureState.LoadEndedKeepsInv` | nel/src/3d/async_texture_manager.cpp:206-215 | A load that ends in the loader thread keeps the invariant |
| `TextureState.LoadEndedMeans` | nel/src/3d/async_texture_manager.cpp:206-215 | What the loader has read is in the texture, or in its LOD, and the other is as it was |
| `TextureState.PickedKeepsInv` | nel/src/3d/async_texture_manager.cpp:562-597 | Starting the upload of a loaded texture takes it out of the waiting list and keeps the invariant |
| `TextureState.BaseUploadedKeepsInv` | nel/src/3d/async_texture_manager.cpp:378-425 | The end of the upload of a texture keeps the invariant |
| `TextureState.UploadedSizes` | nel/src/3d/async_texture_manager.cpp:385-425 | What a texture takes: its base size, and with its LOD four times as much for each level the LOD has more; it can have a LOD if and only if it is DXTC with mipmaps and there are levels between the two |
| `TextureState.LodUploadedKeepsInv` | nel/src/3d/async_texture_manager.cpp:426-436 | The end of the upload of a LOD keeps the invariant |
| `TextureState.LodPickedKeepsInv` | nel/src/3d/async_texture_manager.cpp:600-609 | Starting the upload of a LOD keeps the invariant |
| `TextureState.LodLoadStartedKeepsInv` | nel/src/3d/async_texture_manager.cpp:771-789 | Starting to load a LOD keeps the invariant |
| `TextureState.LodUnloadedKeepsInv` | nel/src/3d/async_texture_manager.cpp:790-801 | Unloading a LOD keeps the invariant |
| `TextureState.SwapRemove` | nel/src/3d/async_texture_manager.cpp:314-324 | Dropping a use removes exactly one occurrence of the instance |
| `TextureRuns.StepKeepsInv` | nel/src/3d/async_texture_manager.cpp:152-617 | Every step of the manager, and every completion of the loader, keeps the invariant |
| `TextureRuns.StepConserves` | nel/src/3d/async_texture_manager.cpp:152-449 | Each step changes the counter of an instance by as much as it changes its number of occurrences in the entries not yet uploaded |
| `TextureRuns.StepUses` | nel/src/3d/async_texture_manager.cpp:219-331 | A texture is there exactly as long as it is used: each step changes its uses by the one added or released, uploaded or not, and only a deletion drops the rest |
| `TextureRuns.StepKeepsOrder` | nel/src/3d/async_texture_manager.cpp:215-252 | The waiting textures keep their order in every step, and a new one comes last |
| `TextureRuns.UploadsGoOn` | nel/src/3d/async_texture_manager.cpp:254-290 | The upload that is current goes on until it ends, unless its texture is deleted |
| `TextureRuns.LodLoadsGoOn` | nel/src/3d/async_texture_manager.cpp:275-290 | So does the LOD that is loading |
| `TextureRuns.OthersStay` | nel/src/3d/async_texture_manager.cpp:152-449 | Each step changes no texture but the one it is about |
| `TextureRuns.ReachableStates` | nel/src/3d/async_texture_manager.cpp:152-617 | Main result: in every reachable state every live texture is in exactly one phase, names and ids correspond one to one, the free list is the null slots, the total size is the sum over the entries, and each counter equals the number of pending uses |
| `TextureRuns.NothingLeft` | nel/src/3d/async_texture_manager.cpp:87-99 | When no texture is left all that the destructor asserts empty is empty |
| `TexturePolicyRuns.NeverThrashes` | nel/src/3d/async_texture_manager.cpp:555-803 | Main result: while textures, sizes and weights stay what they are, whatever loads end and uploads happen in between and with the pivot computed again each time, no LOD is loaded or unloaded twice, only LODs misplaced at first are moved, and there are at most as many decisions as LODs misplaced |
| `TexturePolicyRuns.StepSettles` | nel/src/3d/async_texture_manager.cpp:600-803 | A step settles the LOD it moves (uploaded or on its way if and only if it is wanted), which was not settled, and changes no other |
| `TexturePolicyRuns.DesignatedIsMisplaced` | nel/src/3d/async_texture_manager.cpp:734-768 | What the policy loads is wanted, what it unloads is not |
| `TexturePolicyRuns.WantedStays` | nel/src/3d/async_texture_manager.cpp:705-730 | What is wanted depends only on which textures can have a LOD, on their sizes and their weights, not on what is loaded |
| `TexturePolicyRuns.OrderCovers` | nel/src/3d/async_texture_manager.cpp:669-702 | The sorted array holds each LOD once, in order of weight |
| `TexturePolicyRuns.BaseSizesCount` | nel/src/3d/async_texture_manager.cpp:640-672 | The size without LODs counts each texture that can have one once, with its base size, and nothing else |
| `TexturePolicyRuns.HeavierIsWanted` | nel/src/3d/async_texture_manager.cpp:669-730 | A LOD is wanted whenever one of less weight is |
| `TexturePolicyRuns.HeavierGoesFirst` | nel/src/3d/async_texture_manager.cpp:734-768 | A LOD is loaded only once all those of greater weight are, and unloaded only once no lighter one is left |
| `TexturePolicyRuns.StopsTooEarly` | nel/src/3d/async_texture_manager.cpp:711-751 | A state of the manager, with two textures, in which the pivot counted twice makes the policy do nothing while a wanted LOD is missing |
| `TextureRecords.UploadRecorded` | nel/src/3d/async_texture_manager.cpp:378-436 | The end of an upload marks as uploaded exactly what its record says was sent |
| `AsyncTextures.AsyncTextureManager.constructor` | nel/src/3d/async_texture_manager.cpp:102-118 | The empty manager, with the default budgets |
| `AsyncTextures.AsyncTextureManager.AddTextureRef` | nel/src/3d/async_texture_manager.cpp:152-230 | The fields change by the addition of one use; the id returned is the one filed under the lower-case name |
| `AsyncTextures.AsyncTextureManager.ReleaseTexture` | nel/src/3d/async_texture_manager.cpp:304-333 | The fields change by the loss of one use, the last one deleting the texture |
| `AsyncTextures.AsyncTextureManager.DeleteTexture` | nel/src/3d/async_texture_manager.cpp:234-300 | The fields change by the deletion, every pending use being signalled to its instance |
| `AsyncTextures.AsyncTextureManager.SignalInstances` | nel/src/3d/async_texture_manager.cpp:261-269 | Each instance is decremented once for each of its occurrences |
| `AsyncTextures.AsyncTextureManager.Destroy` | nel/src/3d/async_texture_manager.cpp:87-99 | Deletes what remains; the assertion of line 98 holds and every counter ends at zero |
| `AsyncTextures.AsyncTextureManager.LoadEnd` | nel/src/3d/async_texture_manager.cpp:206-215 | A load that the loader holds ends: the flag of its texture or LOD is set, and the loader holds it no more |
| `AsyncTextures.AsyncTextureManager.UpdateTextureLodSystem` | nel/src/3d/async_texture_manager.cpp:631-803 | Loads or unloads at most the LOD that the policy designates, over all the textures that can have a LOD, in order of weight: the nearer first (`NearerGoesFirst`) |
| `AsyncTextures.AsyncTextureManager.CollectLods` | nel/src/3d/async_texture_manager.cpp:640-697 | Each LOD once, with the weight seen from its nearest user (`WeightIsRatio`), and the size of the base textures |
| `AsyncTextures.AsyncTextureManager.GetNextTextureToUpLoad` | nel/src/3d/async_texture_manager.cpp:555-617 | The first loaded waiting texture (if colouring is still allowed), else the loaded LOD, else what the LOD policy decides (`NextUploadIs`) |
| `AsyncTextures.AsyncTextureManager.Update` | nel/src/3d/async_texture_manager.cpp:363-449 | A frame keeps the counters and the invariant, keeps its budget but for a last rectangle of at most four lines, and whatever it marks as uploaded, texture or LOD, has a complete upload of its geometry recorded in this frame |
| `AsyncTextures.AsyncTextureManager.UploadCurrent` | nel/src/3d/async_texture_manager.cpp:373-376 | The upload that ends is recorded, with its target, its geometry and a complete run of calls |
| `AsyncTextures.AsyncTextureManager.FinishUpload` | nel/src/3d/async_texture_manager.cpp:378-442 | What was uploaded is marked so, as its record says; then no upload is current |
| `AsyncTextures.AsyncTextureManager.BecomeReady` | nel/src/3d/async_texture_manager.cpp:378-425 | A ready texture signals its instances once for each use, and takes its size |
| `AsyncTextures.AsyncTextureManager.TakeOver` | nel/src/3d/async_texture_manager.cpp:426-436 | The LOD takes over the driver handle |
| `AsyncTextures.OutcomeIsPolicyStep` | nel/src/3d/async_texture_manager.cpp:631-803 | What the manager does on a decision is a step of the runs in which the policy never thrashes |
| `AsyncTextures.WeightIsRatio` | nel/src/3d/async_texture_manager.cpp:640-693 | At every user, the weight of a LOD times the distance of the user (at least MIN_DISTANCE) is at least 2 to the power of the level, and exactly so at the nearest user |
| `AsyncTextures.WeightDoubles` | nel/src/3d/async_texture_manager.cpp:690 | One level more doubles the weight at the same distance |
| `AsyncTextures.NearerWeighsMore` | nel/src/3d/async_texture_manager.cpp:640-693 | Of two LODs of the same level, the one with the nearer nearest user weighs more |
| `AsyncTextures.NearerGoesFirst` | nel/src/3d/async_texture_manager.cpp:669-768 | Main result: of two LODs of the same level the nearer one is wanted whenever the farther one is, is there before the farther one is loaded, and goes only once the farther one is gone |
| `AsyncTextures.NextUploadIs` | nel/src/3d/async_texture_manager.cpp:555-617 | What is uploaded next: the first loaded waiting texture, unless it is to be coloured and the frame has coloured enough; a texture that waits and is not loaded holds up the LODs; with none waiting, the LOD once it is loaded |
| `AsyncTextures.SwapsBack` | nel/src/3d/async_texture_manager.cpp:790-801 | A driver handle is swapped back exactly when its LOD is unloaded |
| `AsyncTextures.AsyncTextureManager.CreateTexture` | nel/src/3d/async_texture_manager.cpp:164-216 | A new entry takes a free or new slot, its name, a place in the waiting list and, if it is a file, a load |
| `AsyncTextures.AsyncTextureManager.StopMain` | nel/src/3d/async_texture_manager.cpp:239-259 | Cancels what the loader holds, forgets the current upload and the waiting place, and frees the name |
| `AsyncTextures.AsyncTextureManager.StopLod` | nel/src/3d/async_texture_manager.cpp:275-293 | Cancels the load or upload of the LOD and forgets it |
| `AsyncTextures.AsyncTextureManager.MinDistance` | nel/src/3d/async_texture_manager.cpp:650-665 | The distance of the nearest instance |
| `AsyncTextures.AsyncTextureManager.ChooseLodToMove` | nel/src/3d/async_texture_manager.cpp:640-768 | The decision of the policy over all LODs in order of weight (`WeightIsRatio`, `NearerGoesFirst`) |
| `AsyncTextures.AsyncTextureManager.LoadLod` | nel/src/3d/async_texture_manager.cpp:771-789 | The LOD has a texture, is held by the loader and is the one loading; the assertion of line 776 holds |
| `AsyncTextures.AsyncTextureManager.UnloadLod` | nel/src/3d/async_texture_manager.cpp:790-801 | The base texture gets its handle back; the assertion of line 793 holds |
| `AsyncTextures.AsyncTextureManager.StartUpload` | nel/src/3d/async_texture_manager.cpp:570-596 | The waiting texture becomes the current upload, built first if the HLS manager does |
| `AsyncTextures.AsyncTextureManager.FindLoaded` | nel/src/3d/async_texture_manager.cpp:562-568 | The first waiting texture that is loaded |
| `AsyncTextures.AsyncTextureManager.NextUpload` | nel/src/3d/async_texture_manager.cpp:378-443 | Ends an upload and chooses the next: fewer textures are left to upload, so a frame ends |
| `CloudTokens.NormalizeTokens` | nel/src/3d/cloud_scape.cpp:682-713 | The token loop ends, every processed cloud keeps a token, the sum is exactly QUEUE_SIZE whenever it was above, and each cloud lost the same number of tokens, give or take one, but never its last |
| `CloudTokens.TakeTokens` | nel/src/3d/cloud_scape.cpp:697-713 | The reduction terminates because at most MAX_CLOUDS clouds hold tokens, and each round takes one |
| `CloudTokens.OnesAreFew` | nel/src/3d/cloud_scape.cpp:697-713 | If every cloud holds one token there are no more tokens than clouds |
| `CloudSchedule.StepKeepsInv` | nel/src/3d/cloud_scape.cpp:631-786 | A generate step keeps the queue at QUEUE_SIZE with consecutive frames, each pointer on the last occurrence of its cloud, and each delta exact |
| `CloudSchedule.StepShifts` | nel/src/3d/cloud_scape.cpp:739-782 | A step moves the queue up by one and ends it with the added cloud, with its frame and power; the flag of that cloud is cleared if it was queued and has no power left, and no other flag changes |
| `CloudSchedule.UsedDeltaIsExact` | nel/src/3d/cloud_scape.cpp:643-655 | The distance used to extrapolate the front cloud is the number of steps until its next occurrence, and 1 if it has none |
| `CloudSchedule.StaysQueued` | nel/src/3d/cloud_scape.cpp:643-655 | A queued cloud that is to be processed and is not fading out stays queued |
| `CloudSchedule.ExtrapolationIsExact` | nel/src/3d/cloud_scape.cpp:784-820 | Main result: over whole runs, a cloud is recomputed again exactly when its extrapolation said, and not before |
| `CloudSchedule.NoStarvation` | nel/src/3d/cloud_scape.cpp:631-806 | Main result: each cloud that is queued, to be processed and not fading out is recomputed in any QUEUE_SIZE consecutive steps of the run |
| `CloudSchedule.SomeStepIsFree` | nel/src/3d/cloud_scape.cpp:643-656 | Among any MAX_CLOUDS + 1 consecutive steps at least one is not forced: more forced steps would need more clouds than there are |
| `CloudSchedule.AbsentShrinks` | nel/src/3d/cloud_scape.cpp:715-737 | A step that is not forced queues a cloud that was not, if there is one |
| `CloudSchedule.NewCloudsEnter` | nel/src/3d/cloud_scape.cpp:715-737 | Main result: while no cloud fades out, every MAX_CLOUDS + 1 steps give a place in the queue to a cloud that had none, until all have one |
| `CloudSchedule.FadedCloudsLeave` | nel/src/3d/cloud_scape.cpp:643-761 | Main result: a queued cloud without power is neither to process nor queued after 2 * QUEUE_SIZE steps |
| `CloudScapes.CloudScape.constructor` | nel/src/3d/cloud_scape.cpp:404-447 | The queue filled with the clouds in turn, each nbCloud places the same ones, satisfies the invariant and holds every cloud |
| `CloudScapes.CloudScape.AddEntry` | nel/src/3d/cloud_scape.cpp:739-774 | Links the last occurrence to the new one and appends it; the flag of a queued cloud without power is cleared, and no other |
| `CloudScapes.CloudScape.Generate` | nel/src/3d/cloud_scape.cpp:631-806 | One generate step: the fields change by the step of the scheduler (`StepShifts`, `FadedCloudsLeave`), and the cloud and distance to recompute are those proved exact |
| `CloudScapes.CloudScape.ChooseCloud` | nel/src/3d/cloud_scape.cpp:643-738 | The front cloud if it must be queued again, else the first cloud of highest priority under the normalised tokens |
| `CloudScapes.CloudScape.HighestPriority` | nel/src/3d/cloud_scape.cpp:715-737 | The assertion of line 737 holds |
| `CloudScapes.CloudScape.FindCloud` | nel/src/3d/cloud_scape.cpp:785-797 | Whether the front cloud is still in the queue |
| `CloudScapes.FirstServed` | nel/src/3d/cloud_scape.cpp:717-736 | The cloud of highest priority is an absent one, if there is one: the priority rule meets the condition under which no cloud starves |
| `CloudScapes.PriorityIsLateness` | nel/src/3d/cloud_scape.cpp:720-726 | The priority is how late a cloud is: the frames since its last occurrence less the period at which t tokens have t places in the queue |
| `CloudScapes.LongestWaitFirst` | nel/src/3d/cloud_scape.cpp:715-737 | Of the clouds with as many tokens, the one that has waited longest goes first |
| `CloudScapes.TurnsRepeat` | nel/src/3d/cloud_scape.cpp:424-445 | The first queue repeats after each turn of the clouds |
| `ChannelMixers.AddedKeepsInv` | nel/src/3d/channel_mixer.cpp:322-393 | Adding or resetting a channel keeps each layer of the cache right whenever the flag in front of it is clean |
| `ChannelMixers.ResetKeepsInv` | nel/src/3d/channel_mixer.cpp:397-402 | Dropping all the channels keeps each layer of the cache right whenever the flag in front of it is clean |
| `ChannelMixers.WithEnabledKeepsInv` | nel/src/3d/channel_mixer.cpp:406-447 | Enabling or disabling a channel, for its own sake or by detail keeps each layer of the cache right whenever the flag in front of it is clean |
| `ChannelMixers.WithAnimationKeepsInv` | nel/src/3d/channel_mixer.cpp:466-519 | Changing or emptying a slot keeps each layer of the cache right whenever the flag in front of it is clean |
| `ChannelMixers.CacheAgreement` | nel/src/3d/channel_mixer.cpp:168-190 | Main result: when both flags are clean, each evaluation list is exactly, in order of id, the enabled channels of its detail mode for which some slot has a track of their name; every cached track is that track, or else the default |
| `ChannelMixers.AddedIsEvaluated` | nel/src/3d/channel_mixer.cpp:322-393 | Main result: after a channel is added and the mixer refreshed, its id is in the list of the mode asked for, and in no other, if and only if some slot has a track of its name |
| `ChannelMixers.ChannelMixer.AddChannel` | nel/src/3d/channel_mixer.cpp:322-393 | The channel named, if the set has it, is filed with the name, default track and mode given, enabled for user and LOD, with the default track in every slot, and every slot becomes dirty; unknown names are refused |
| `ChannelMixers.ChannelMixer.SetAnimationSet` | nel/src/3d/channel_mixer.cpp:68-75 | All channels go |
| `ChannelMixers.ChannelMixer.ResetChannels` | nel/src/3d/channel_mixer.cpp:397-402 | All channels go, and no list reaches any of them |
| `ChannelMixers.ChannelMixer.EnableChannel` | nel/src/3d/channel_mixer.cpp:406-418 | Only the enabled flag of that channel changes |
| `ChannelMixers.ChannelMixer.LodEnableChannel` | nel/src/3d/channel_mixer.cpp:435-447 | Only the detail flag of that channel changes |
| `ChannelMixers.ChannelMixer.SetSlotAnimation` | nel/src/3d/channel_mixer.cpp:466-489 | The slot has the animation and is dirty |
| `ChannelMixers.ChannelMixer.EmptySlot` | nel/src/3d/channel_mixer.cpp:502-519 | The slot is empty and dirty |
| `ChannelMixers.ChannelMixer.DirtAll` | nel/src/3d/channel_mixer.cpp:619-634 | Every slot that is not empty is dirty |
| `ChannelMixers.ChannelMixer.RefreshChannel` | nel/src/3d/channel_mixer.cpp:672-768 | Looking up only the dirty slots gives a channel the right track in every slot |
| `ChannelMixers.ChannelMixer.RefreshList` | nel/src/3d/channel_mixer.cpp:638-777 | The threaded lists hold exactly the channels in use of each detail mode, in order of id |
| `ChannelMixers.ChannelMixer.CleanAll` | nel/src/3d/channel_mixer.cpp:604-615 | Every slot and the mixer are clean |
| `ChannelMixers.ChannelMixer.CollectEnabled` | nel/src/3d/channel_mixer.cpp:788-812 | Following a threaded list yields its enabled channels in order |
| `ChannelMixers.ChannelMixer.RefreshListToEval` | nel/src/3d/channel_mixer.cpp:781-816 | The evaluation lists are rebuilt |
| `ChannelMixers.ChannelMixer.Refresh` | nel/src/3d/channel_mixer.cpp:178-190 | The prelude of every evaluation makes all three layers agree with the animations of the slots |
| `ChannelMixers.EvalSingleChannel` | nel/src/3d/channel_mixer.cpp:91-163 | The blend of a channel is the mean of the values of its active slots, weighted by their blends; with no weight the value is not modified |
| `ChannelMixers.MeanIsBetween` | nel/src/3d/channel_mixer.cpp:91-163 | The blend lies between the values of the slots that weigh |
| `ChannelMixers.EachSlotCounts` | nel/src/3d/channel_mixer.cpp:108-153 | Each slot counts once in the mean, with its weight |
| `ChannelMixers.ChannelMixer.SortSlots` | nel/src/3d/channel_mixer.cpp:640-661 | The slots to look up again, and those that stay |
| `ChannelMixers.ChannelMixer.FindTracks` | nel/src/3d/channel_mixer.cpp:678-705 | The right track in each dirty slot, the default where there is none, and whether any was found |
| `ChannelMixers.ChannelMixer.FindTrack` | nel/src/3d/channel_mixer.cpp:683-704 | The track of one slot, found by channel id or by name, is the one of that name |
| `ChannelMixers.ChannelMixer.StillUsed` | nel/src/3d/channel_mixer.cpp:707-727 | Whether a slot that stays has a track of its own |
| `ClusterGraph.Mark` | nel/src/3d/cluster.cpp:446-448 | Setting a flag changes nothing of the graph |
| `ClusterRay.ReachesOneLinkAtATime` | nel/src/3d/cluster.cpp:537-601 | The clusters reached from u while some are blocked are u and those reached from its links with u blocked too: an on-stack flag is enough on a cyclic graph |
| `ClusterRay.ReachedIsLeast` | nel/src/3d/cluster.cpp:537-601 | What is reached is contained in every set that holds the start and is closed under the links |
| `ClusterRay.ReachedIsClosed` | nel/src/3d/cluster.cpp:537-601 | What is reached is closed under the links |
| `ClusterRay.CameraRayClip` | nel/src/3d/cluster.cpp:537-601 | Main result: ends on any graph, adds to the list exactly the clusters reached (by the links of `EdgesAre`), none twice, and restores every flag |
| `ClusterRay.EdgesAre` | nel/src/3d/cluster.cpp:554-598 | The links, from the fields of portals and clusters: a portal leads to the one of its two clusters that is not this one, if the ray crosses it; up if visible from the father, down if the father is visible |
| `ClusterRay.PortalIsCrossed` | nel/src/3d/cluster.cpp:554-561 | A portal between two clusters that the ray crosses leads from each to the other, so the traversal from the one finds the other |
| `ClusterRay.FollowLinks` | nel/src/3d/cluster.cpp:554-598 | The portals, the link up, the links down, each once |
| `ClusterRay.ClustersVisited` | nel/src/3d/scene.cpp:1438-1444 | From several starting clusters: the union of what each reaches |
| `ClusterClip.RecursTraverseClip` | nel/src/3d/cluster.cpp:444-512 | Main result: ends on any graph, makes exactly the visits of the walk (by the links of `PortalLinkIs` and `FamilyLinkIs`), and restores the view pyramid and every flag |
| `ClusterClip.LookThrough` | nel/src/3d/cluster.cpp:465-496 | One portal: backface test, camera inside, clip, and the pyramid put back |
| `ClusterClip.TraverseClip` | nel/src/3d/cluster.cpp:436-440 | The call made by the root |
| `ClusterClip.VisitsAreTheTrails` | nel/src/3d/cluster.cpp:444-512 | The visits are exactly the simple paths of admissible links from the root |
| `ClusterClip.PortalLinkIs` | nel/src/3d/cluster.cpp:464-496 | When a portal is looked through, from its own fields: to the other of its two clusters, unless it is seen from behind by a cluster entered from the father it is visible from; with the whole pyramid if the camera is there, else if it is open and with what its clip leaves |
| `ClusterClip.FamilyLinkIs` | nel/src/3d/cluster.cpp:498-509 | When the father and the children are visited, with the same pyramid |
| `ClusterClip.PortalShowsBothWays` | nel/src/3d/cluster.cpp:464-496 | Through an open portal that its clip leaves visible, or into the cluster of the camera, each of its clusters visits the other |
| `ClusterClip.VisitsOnce` | nel/src/3d/cluster.cpp:444-512 | No path is visited twice |
| `ClusterClip.PyramidIsComposition` | nel/src/3d/cluster.cpp:465-496 | Each cluster is entered with the composition of the portal clips along the path, portals into a cluster with the camera excepted |
| `ClusterClip.FollowLinks` | nel/src/3d/cluster.cpp:464-509 | The portals, the link up, the links down: the visits through each, in order |
| `ClusterClip.Visit` | nel/src/3d/cluster.cpp:450-509 | A visit proper: tracked, then what the links lead to |
| `TexturePacking.ScanIsFirst` | nel/src/3d/coarse_mesh_build.cpp:261-348 | The naive scan finds the first free position row by row, or there is none |
| `TexturePacking.Collision` | nel/src/3d/coarse_mesh_build.cpp:272-299 | The window misses no collision: none found means none with any placed texture |
| `TexturePacking.OverlapsMeans` | nel/src/3d/coarse_mesh_build.cpp:280-299 | Two textures that are not empty overlap if and only if they have a cell in common |
| `TexturePacking.TriedAre` | nel/src/3d/coarse_mesh_build.cpp:261-268 | A texture no larger than the atlas is tried exactly where it is inside and clear of the last row and column |
| `TexturePacking.FirstFit` | nel/src/3d/coarse_mesh_build.cpp:257-353 | Main result: for every size, larger than the atlas or not, the windowed scan with its jumps finds what the naive scan finds, and fails only if that does |
| `TexturePacking.PackedApart` | nel/src/3d/coarse_mesh_build.cpp:245-355 | All textures are placed with their own sizes, over no other; each is inside the atlas if and only if it is no larger |
| `TexturePacking.PackFailsOnlyIfFull` | nel/src/3d/coarse_mesh_build.cpp:350-353 | The placement fails only on a texture for which no tried position is free |
| `TexturePacking.SingleTexture` | nel/src/3d/coarse_mesh_build.cpp:257-268 | A lone texture is placed if and only if none of its sides equals that of the atlas: the flush positions are never tried, and larger textures are accepted |
| `TexturePacking.LowerBound` | nel/src/3d/coarse_mesh_build.cpp:273 | The first placed texture not above a row |
| `Bitmaps.Expand` | nel/src/3d/coarse_mesh_build.cpp:365-424 | The border repeats the nearest pixel, the inside is the bitmap; an empty bitmap is left alone |
| `Bitmaps.ClampIsNearest` | nel/src/3d/coarse_mesh_build.cpp:383-422 | No pixel of the bitmap is nearer to one of the border than the one it repeats |
| `Bitmaps.Border` | nel/src/3d/coarse_mesh_build.cpp:383-422 | The pointer arithmetic of the four sides and four corners writes the right pixel in each border cell |
| `Bitmaps.Bitmap.Blit` | nel/src/misc/bitmap.cpp:2600-2724 | The cells covered, clipped on the four sides, show the source; the others do not change |
| `Bitmaps.Enlarge` | nel/src/3d/coarse_mesh_build.cpp:374-381 | The bitmap one pixel larger on each side shows what it did |
| `Bitmaps.Store` | nel/src/3d/coarse_mesh_build.cpp:399-422 | One pixel copied through a pair of pointers |
| `TextureAtlas.BuildBitmap` | nel/src/3d/coarse_mesh_build.cpp:233-360 | The placement agrees with the reference, and each texture can be read back from the atlas where it was placed, the whole of it if and only if it is no larger |
| `TextureAtlas.Insert` | nel/src/3d/coarse_mesh_build.cpp:306-312 | The placed textures stay sorted by row |
| `TextureAtlas.BlitBeside` | nel/src/3d/coarse_mesh_build.cpp:318-328 | A texture stays visible when another is blitted beside it |
| `TextureAtlas.BlitOne` | nel/src/3d/coarse_mesh_build.cpp:314-328 | A texture blitted where it was placed, beside the others |
| `NamingRuns.DoRemoveKeepsInv` | nelns/naming_service/naming_service.cpp:359-429 | Beginning an unregistration, again or not, keeps the invariant: awaited ids are registered and not unregistering, ids distinct, every id online, unique names unique |
| `NamingRuns.DoRemoveMeans` | nelns/naming_service/naming_service.cpp:381-424 | A service that unregisters goes at once if and only if no other is live; else it is on no connection any more and waits, from now on, for exactly the live ones; nobody waits for it |
| `NamingRuns.UnregisterSockKeepsInv` | nelns/naming_service/naming_service.cpp:446-462 | So does losing a connection with several services |
| `NamingRuns.AckKeepsInv` | nelns/naming_service/naming_service.cpp:693-714 | So does an acknowledgement |
| `NamingRuns.CheckedKeepsInv` | nelns/naming_service/naming_service.cpp:661-687 | So does the timeout check |
| `NamingRuns.RemainingAre` | nelns/naming_service/naming_service.cpp:663-685 | What is left after the check: every entry but those that wait for nobody, or longer than the timeout |
| `NamingRuns.ReleasedLeave` | nelns/naming_service/naming_service.cpp:665 | A service that has nobody left to wait for leaves at the next check |
| `NamingRuns.LastAckReleases` | nelns/naming_service/naming_service.cpp:698-711 | The last acknowledgement a service waits for lets it go |
| `NamingRuns.FirstFreeIsFirst` | nelns/naming_service/naming_service.cpp:515-546 | The allocated id is the smallest free one from 128 on; none if all sixteen-bit ids are taken |
| `NamingRuns.DeniedMeans` | nelns/naming_service/naming_service.cpp:178-228 | A service is denied if and only if a registered one of its restricted name stands against it, on the shard or on its machine |
| `NamingRuns.RegisterKeepsInv` | nelns/naming_service/naming_service.cpp:485-655 | Registering under an id not in use keeps the invariant |
| `NamingRuns.RegisterDoublesId` | nelns/naming_service/naming_service.cpp:548-565 | Registering keeps the ids distinct if and only if the id is allocated or not in use: a used one is taken again |
| `NamingRuns.RunsKeepInv` | nelns/naming_service/naming_service.cpp:359-714 | Main result: the invariant holds in every state of every run |
| `NamingRuns.DeparturesAreProper` | nelns/naming_service/naming_service.cpp:359-714 | Main result: over whole runs, when a service leaves, each service that was live when it unregistered has since then acknowledged it or unregistered itself, or the timeout counted from its last unregistration is over |
| `NamingRuns.LeaversUnregistered` | nelns/naming_service/naming_service.cpp:359-714 | A service that leaves had unregistered, since it was registered under its id |
| `NamingRuns.ExpiredLeave` | nelns/naming_service/naming_service.cpp:385-388 | Main result: over whole runs, an update later than the last unregistration of a service plus the timeout leaves it unregistered, whoever it still waits for |
| `NamingRuns.LostConnectionUnregisters` | nelns/naming_service/naming_service.cpp:446-462 | Main result: over whole runs, a service registered on a connection is live no more once the connection is lost |
| `NamingRuns.NewcomerIs` | nelns/naming_service/naming_service.cpp:567-575 | A service newly registered has the name and addresses it gave, is live, online and on its connection, behind the others, which do not change |
| `NamingRuns.StepAwaits` | nelns/naming_service/naming_service.cpp:359-714 | From its unregistration on, a service waits for each live one until that one acknowledges or unregisters, or the timeout is over and it leaves |
| `NamingRuns.StepSince` | nelns/naming_service/naming_service.cpp:385-388 | The timeout is counted from the last unregistration |
| `NamingRuns.OnlineOnlyGrows` | nelns/naming_service/naming_service.cpp:416-429 | An id never goes offline |
| `NamingRuns.AwaitedWereTold` | nelns/naming_service/naming_service.cpp:369-414 | The awaited services were all told if and only if all live services can access the one that goes |
| `NamingServices.CanAccessMeans` | nelns/naming_service/naming_service.cpp:294-323 | A service can be reached if and only if it is not unregistering and shares a network |
| `NamingServices.FarewellsAre` | nelns/naming_service/naming_service.cpp:371-379 | The farewells go to exactly the services that can reach the one that goes |
| `NamingServices.AnnouncementsAre` | nelns/naming_service/naming_service.cpp:589-599 | The announcements go to exactly the others that can reach the new service |
| `NamingServices.AvailableAre` | nelns/naming_service/naming_service.cpp:620-646 | A new service is told of exactly the services it can reach |
| `NamingServices.NamingService.DoRemove` | nelns/naming_service/naming_service.cpp:359-429 | The list changes as stated, the farewells are sent to who can access the service, and the next entry is the right one |
| `NamingServices.NamingService.UnregisterService` | nelns/naming_service/naming_service.cpp:431-444 | The first entry with the id unregisters |
| `NamingServices.NamingService.UnregisterConnection` | nelns/naming_service/naming_service.cpp:446-462 | All the entries of a connection unregister |
| `NamingServices.NamingService.CheckWaitingUnregistrationServices` | nelns/naming_service/naming_service.cpp:661-687 | Removes exactly the entries that have waited enough, in number of answers or in time (`RemainingAre`) |
| `NamingServices.NamingService.AckUnregistration` | nelns/naming_service/naming_service.cpp:693-714 | Removes one awaited occurrence of the sender |
| `NamingServices.NamingService.QueryStartService` | nelns/naming_service/naming_service.cpp:178-228 | Grants unless denied, and then marks the id online |
| `NamingServices.NamingService.AllocateId` | nelns/naming_service/naming_service.cpp:515-546 | The loop over ids and entries finds the first free id |
| `NamingServices.NamingService.DoRegister` | nelns/naming_service/naming_service.cpp:485-659 | Registers or refuses, announces to who can access the service but not to itself, and answers with the services it may access; a reconnection is silent |
| `NamingServices.NamingService.AddUniqueService` | nelns/naming_service/naming_service.cpp:133-136 | The first restriction given for a name holds |
| `NamingServices.NamingService.ForgetEverywhere` | nelns/naming_service/naming_service.cpp:390-404 | Nobody waits for the id any more |
| `NamingServices.NamingService.CollectLive` | nelns/naming_service/naming_service.cpp:406-414 | The ids of the entries that are not unregistering, in order |
| `NamingServices.NamingService.BroadcastFarewells` | nelns/naming_service/naming_service.cpp:371-379 | One farewell to each service that can access the one that goes |
| `NamingServices.NamingService.BroadcastRegistration` | nelns/naming_service/naming_service.cpp:577-600 | One announcement to each other service that can access the new one |
| `NamingServices.NamingService.CheckOne` | nelns/naming_service/naming_service.cpp:663-685 | One entry of the timeout check (`RemainingAre`, `ExpiredLeave`) |
| `AdminRuns.TreatBalances` | nelns/admin_executor_service/admin_executor_service.cpp:616-691 | Asking one service, or answering at once, keeps the balance between answers owed and answers awaited |
| `AdminRuns.CountersAre` | nelns/admin_executor_service/admin_executor_service.cpp:616-691 | One answer more awaited, from now on; one less; one more given, with its rows |
| `AdminRuns.ViewBalancesIff` | nelns/admin_executor_service/admin_executor_service.cpp:1244-1295 | An answer keeps the balance if and only if its service owed exactly one: all occurrences are erased but one answer is counted |
| `AdminRuns.LateViewBalances` | nelns/admin_executor_service/admin_executor_service.cpp:646-667 | A late answer changes no counter |
| `AdminRuns.DisconnectBalances` | nelns/admin_executor_service/admin_executor_service.cpp:1328-1388 | A lost service keeps the balance, whatever it owed |
| `AdminRuns.ConnectBalancesIff` | nelns/admin_executor_service/admin_executor_service.cpp:1309-1326 | A connection keeps the balance if and only if nothing was owed from its slot |
| `AdminRuns.DummyAnswersAre` | nelns/admin_executor_service/admin_executor_service.cpp:727-769 | The dummy answers of an expired request are as many as the answers owed twice or more |
| `AdminRuns.NoDummyAnswers` | nelns/admin_executor_service/admin_executor_service.cpp:760-768 | In a reachable state there are none |
| `AdminRuns.HoldersAre` | nelns/admin_executor_service/admin_executor_service.cpp:733-758 | One timeout row for each connected service that owes the request, by its alias or else its short name |
| `AdminRuns.RemainingAre` | nelns/admin_executor_service/admin_executor_service.cpp:725-819 | What survives the cleaning is exactly what is neither expired nor complete |
| `AdminRuns.RepliesAre` | nelns/admin_executor_service/admin_executor_service.cpp:725-808 | One reply for each request expired or complete: to the service that asked, with its answers, and if it is expired with what is missing |
| `AdminRuns.CleanSplits` | nelns/admin_executor_service/admin_executor_service.cpp:771-819 | Each request stays or gets one reply |
| `AdminRuns.StepKeeps` | nelns/admin_executor_service/admin_executor_service.cpp:881-1388 | Every message keeps the balance and the account of requests |
| `AdminRuns.RunsAreAccounted` | nelns/admin_executor_service/admin_executor_service.cpp:616-1388 | Main result: in every state of every run the services owe each pending request as many answers as it waits for, and every request ever asked is pending or has had exactly one reply |
| `AdminRuns.RepliesGoToAskers` | nelns/admin_executor_service/admin_executor_service.cpp:771-808 | Main result: in every state of every run, each request and each reply is for the service that asked it |
| `AdminRuns.CleaningReplies` | nelns/admin_executor_service/admin_executor_service.cpp:725-819 | An expired or complete request has its reply as soon as requests are cleaned |
| `AdminExecutors.OneDestinationIsFine` | nelns/admin_executor_service/admin_executor_service.cpp:1008-1077 | A request for one destination (all online, all, or a name) goes to each service at most once, and to connected services only if and only if it trips no assertion |
| `AdminExecutors.SentToAre` | nelns/admin_executor_service/admin_executor_service.cpp:826-852 | Who is sent a request: the connected services, or those with the alias of the name, or if nobody has it those with its short name |
| `AdminExecutors.OfflineAre` | nelns/admin_executor_service/admin_executor_service.cpp:1023-1037 | The answers given at once for "#": those of the registered services of which none runs |
| `AdminExecutors.BlankSlotsFound` | nelns/admin_executor_service/admin_executor_service.cpp:826-934 | The assertion on the service id is tripped if and only if a slot is blank and the name sent to has no alias, or no short name and an alias that nobody has |
| `AdminExecutors.DistinctExactly` | nelns/admin_executor_service/admin_executor_service.cpp:1079-1115 | For all lists of destinations: a request goes to no service twice if and only if no two destinations send it to a common slot |
| `AdminExecutors.TwoDestinationsMayDouble` | nelns/admin_executor_service/admin_executor_service.cpp:1079-1115 | A request for "*" and a name goes twice to that service |
| `AdminExecutors.AdminExecutor.AddRequest` | nelns/admin_executor_service/admin_executor_service.cpp:1079-1115 | The tables change as if the request were sent to the targets of its destinations, one after the other |
| `AdminExecutors.AdminExecutor.AddRequestFor` | nelns/admin_executor_service/admin_executor_service.cpp:1008-1077 | One destination: whom it stands for, and what is sent |
| `AdminExecutors.AdminExecutor.ReceiveView` | nelns/admin_executor_service/admin_executor_service.cpp:1244-1295 | The answer is counted and the service owes the request no more |
| `AdminExecutors.AdminExecutor.ServiceConnection` | nelns/admin_executor_service/admin_executor_service.cpp:1309-1326 | The slot, and the slots before it, exist; the slot is blank but connected |
| `AdminExecutors.AdminExecutor.ServiceDisconnection` | nelns/admin_executor_service/admin_executor_service.cpp:1328-1388 | Each request owed waits for one answer less, for each time it was owed |
| `AdminExecutors.AdminExecutor.ExpireRequest` | nelns/admin_executor_service/admin_executor_service.cpp:728-769 | A timeout row for each service that owes the request an answer, then dummy rows up to the count; the loop of line 766 ends because no more services owe than answers are awaited |
| `AdminExecutors.AdminExecutor.CleanRequests` | nelns/admin_executor_service/admin_executor_service.cpp:693-820 | Replies to and erases exactly the requests that are over, and ends |
| `AdminExecutors.BalancedCanExpire` | nelns/admin_executor_service/admin_executor_service.cpp:760-768 | A balanced request satisfies the condition under which the dummy loop ends |
| `AdminExecutors.AdminExecutor.AddRequestWaitingNb` | nelns/admin_executor_service/admin_executor_service.cpp:616-630 | The first request with the id waits for one answer more, from now on |
| `AdminExecutors.AdminExecutor.SubRequestWaitingNb` | nelns/admin_executor_service/admin_executor_service.cpp:632-644 | and for one less |
| `AdminExecutors.AdminExecutor.AddRequestAnswer` | nelns/admin_executor_service/admin_executor_service.cpp:646-691 | One answer more, with its rows; an unknown request is forgotten |
| `AdminExecutors.AdminExecutor.TreatRequestForRunningService` | nelns/admin_executor_service/admin_executor_service.cpp:881-938 | One answer more is awaited, and the service owes it |
| `AdminExecutors.AdminExecutor.TreatRequestAtOnce` | nelns/admin_executor_service/admin_executor_service.cpp:940-1006 | One answer more is awaited and given |
| `AdminExecutors.AdminExecutor.AddRequestForOnlineServices` | nelns/admin_executor_service/admin_executor_service.cpp:1008-1021 | Each connected service once, and oneself |
| `AdminExecutors.AdminExecutor.AddRequestForOfflineServices` | nelns/admin_executor_service/admin_executor_service.cpp:1023-1037 | Each registered service that matches no slot |
| `AdminExecutors.AdminExecutor.CleanOne` | nelns/admin_executor_service/admin_executor_service.cpp:727-818 | One request: expired, replied to and erased, or left |
| `AnimationHeaders.SearchLowerBound` | nel/include/nel/misc/algo.h:107-124 | The dichotomy finds the last index whose value is not above the key |
| `AnimationHeaders.SearchFinds` | nel/include/nel/misc/algo.h:107-124 | In a sorted array it ends on the key if and only if the key is there |
| `AnimationHeaders.TruncatedSame` | nel/src/3d/animation.cpp:462-474 | Two ids are the same on sixteen bits if and only if they differ by a multiple of 65536 |
| `AnimationHeaders.CompressionKeepsLookups` | nel/src/3d/animation.cpp:132-158 | Without aliases every name finds the track it found before, or nothing as before, if all tracks are named or its truncated id is not 0 |
| `AnimationHeaders.LookupEndsOn` | nel/src/3d/animation.cpp:132-158 | A lookup after compression ends on a track that stands under the truncated id, named or not, or on nothing if there is none |
| `AnimationHeaders.StrayTrackAnswers` | nel/src/3d/animation.cpp:451-490 | A track without a name of its own makes the animation answer for channel 0, for which it had no track |
| `AnimationHeaders.CompressionIsSafe` | nel/src/3d/animation.cpp:451-512 | Main result: with all tracks named, all lookups are kept if and only if no other channel has the sixteen-bit id of a track of the animation |
| `AnimationHeaders.CompressionIsSafeInAnyOrder` | nel/src/3d/animation.cpp:451-512 | Main result: all lookups are kept, in whatever order the sort leaves equal ids, if and only if no other channel has the sixteen-bit id of a track and no track without a name stands under the id of a channel |
| `AnimationHeaders.SmallTablesAreSafe` | nel/src/3d/animation.cpp:161-189 | With at most 65536 channels there is no alias and the set of track names is unchanged |
| `AnimationSets.BuildKeepsLookups` | nel/src/3d/animation_set.cpp:121-166 | So for every animation with all tracks named of a set that is built with compression |
| `AnimationSets.SortByChannelId` | nel/src/3d/animation.cpp:477-478 | The sort is a permutation in order of id |
| `AnimationSets.Animation.AddTrack` | nel/src/3d/animation.cpp:75-89 | A second track under one name is kept but not found by it, and is all that can leave a track without a name |
| `AnimationSets.Animation.GetIdTrackByName` | nel/src/3d/animation.cpp:132-158 | Before and after compression, through the owner and the truncated channel id |
| `AnimationSets.Animation.GetIdTrackByChannelId` | nel/src/3d/animation.cpp:497-512 | The index of the id, or not found; also when there is no track |
| `AnimationSets.Animation.GetTrackNames` | nel/src/3d/animation.cpp:161-189 | Adds the names of the tracks, or those of their channels once the header is compressed |
| `AnimationSets.Animation.ApplyAnimHeaderCompression` | nel/src/3d/animation.cpp:451-493 | The tracks are rearranged by the truncated id of their channel, those without a name under 0 |
| `AnimationSets.AnimationSet.AddAnimation` | nel/src/3d/animation_set.cpp:68-89 | The first animation of a name keeps the name |
| `AnimationSets.AnimationSet.BuildTables` | nel/src/3d/animation_set.cpp:129-157 | The two channel tables are inverse to each other, in order of name, and hold exactly the names of the tracks |
| `AnimationSets.AnimationSet.BuildChannelNameFromMap` | nel/src/3d/animation_set.cpp:268-277 | Inverts the map |
| `AnimationSets.AnimationSet.Build` | nel/src/3d/animation_set.cpp:121-187 | Builds the tables and compresses every animation once; a second call with compression does nothing |
| `AnimationSets.InsertName` | nel/src/3d/animation_set.cpp:133-142 | The set of names stays in order |
| `AnimationSets.LessMeans` | nel/src/3d/animation_set.cpp:133-142 | The order of the names is lexicographic |
| `AnimationSets.AnimationSet.CollectNames` | nel/src/3d/animation_set.cpp:133-142 | Exactly the names of the tracks of all animations |
| `AnimationSets.AnimationSet.NumberNames` | nel/src/3d/animation_set.cpp:144-157 | Numbers in order of name |
| `AnimationSets.AnimationSet.CompressAll` | nel/src/3d/animation_set.cpp:159-166 | Every animation compressed against the tables, with this set as owner |
| `AnimationSets.AnimationSet.GetChannelIdByName` | nel/include/nel/3d/animation_set.h:85-93 | The id found is where the table of channel names has the name; nothing is found exactly if the table has it nowhere |
| `BezierPatches.PointIsInterpolated` | nel/src/3d/bezier_patch.cpp:103-141 | The Bernstein form gives the same points as repeated interpolation |
| `BezierPatches.LeftHalf` | nel/src/3d/bezier_patch.cpp:369-385 | The first half of a curve runs along the curve |
| `BezierPatches.RightHalf` | nel/src/3d/bezier_patch.cpp:369-385 | The second half goes on from there |
| `BezierPatches.EvalByRows` | nel/src/3d/bezier_patch.cpp:103-141 | The sixteen-term sum is a curve through points of the rows |
| `BezierPatches.EvalByColumns` | nel/src/3d/bezier_patch.cpp:103-141 | and a curve through points of the columns |
| `BezierPatches.BordersAre` | nel/src/3d/bezier_patch.cpp:103-141 | The border of the surface is the curves of the control points around it, from vertex to vertex |
| `BezierPatches.SubdivideSKeepsSurface` | nel/src/3d/bezier_patch.cpp:389-416 | Main result: left(u, t) is the patch at (s u, t), right(u, t) the patch at (s + (1 - s) u, t) |
| `BezierPatches.SubdivideTKeepsSurface` | nel/src/3d/bezier_patch.cpp:420-447 | Main result: the same along t |
| `BezierPatches.HalvesMeetS` | nel/src/3d/bezier_patch.cpp:389-416 | The halves share the border along the cut, which lies on the surface |
| `BezierPatches.HalvesMeetT` | nel/src/3d/bezier_patch.cpp:420-447 | The same along t |
| `BezierPatches.CutAcrossBorder` | nel/src/3d/bezier_patch.cpp:389-447 | Patches with a border in common still share its pieces after a cut across it |
| `BezierPatches.BezierPatch.EvalAt` | nel/src/3d/bezier_patch.cpp:103-141 | Computes the sum |
| `BezierPatches.BezierPatch.SubdivideS` | nel/src/3d/bezier_patch.cpp:389-416 | Writes the halves, also over the patch itself |
| `BezierPatches.BezierPatch.SubdivideT` | nel/src/3d/bezier_patch.cpp:420-447 | The same along t |
| `BezierPatches.SubdivideAll` | nel/src/3d/bezier_patch.cpp:401-403 | The loop over the four curves |
| `BezierPatches.BezierPatch.SetRows` | nel/src/3d/bezier_patch.cpp:405-415 | The control points written back along s |
| `BezierPatches.BezierPatch.SetColumns` | nel/src/3d/bezier_patch.cpp:437-446 | and along t |
| `FastPtrLists.SwapErasedRemovesOne` | nel/src/3d/fast_ptr_list.cpp:95-102 | Moving the last element into the hole removes exactly one occurrence |
| `FastPtrLists.OneListPerNode` | nel/src/3d/fast_ptr_list.cpp:65-82 | A node is in at most one list, at most once |
| `FastPtrLists.Erase` | nel/src/3d/fast_ptr_list.cpp:85-106 | Both arrays lose the element in step, every node still knows its place, and only that link is gone; nothing if the node is elsewhere |
| `FastPtrLists.Unlink` | nel/src/3d/fast_ptr_list.cpp:35-43 | The node is in no list, and nothing else changed |
| `FastPtrLists.Insert` | nel/src/3d/fast_ptr_list.cpp:65-82 | The node leaves its list and is linked to this one; if it was already there nothing changes, not even the element |
| `FastPtrLists.Clear` | nel/src/3d/fast_ptr_list.cpp:54-61 | Exactly the links of that list are gone |
| `FastPtrLists.Perform` | nel/src/3d/fast_ptr_list.cpp:35-106 | Any sequence of operations over any number of lists and nodes keeps back pointers and arrays right, and does to the links what the operations say |
| `FastPtrLists.Remove` | nel/src/3d/fast_ptr_list.cpp:91-105 | The swap, the index of the moved node, and the two pops |
| `FastPtrLists.Append` | nel/src/3d/fast_ptr_list.cpp:77-81 | The element and its node at the end of both arrays |

## Left out

- Drawing, driver state, coarse bitmaps and `getCoarseBitmap`: foreign code. Of the driver calls only the creation, the line ranges and the handle swaps are kept.
- The positions passed to the loader, and the tie-breaking of the LOD sort: a sort by weight alone is modelled.
- Base sizes, with their factor of 1.33, are computed over the reals.
- Cancelling a load while the loader thread is inside it: a completion happens between two calls of the manager.
- CloudScapes.CloudScape.constructor: requires a cloud. With none the queue is filled with -1, and line 770 would index the pointers with it.
- Changes of the cloud flags by `anim` between two steps are changes of state between two runs.
- Float scores of the clouds: each step takes the rounded scores as a parameter. What a cloud computes when it is generated is not modelled.
- ChannelMixers.ChannelMixer.SetAnimationSet: requires that the animations left in the slots agree with the new set, because slots hold ids of the old one.
- ChannelMixers.EvalSingleChannel: blends real values only; quaternion blending and the touch of the owner are not modelled.
- Skeleton weights, `evalChannels` and the evaluation of tracks.
- Lower case of texture names is ASCII only.
- ClusterClip: the models attached to a cluster (`clipGetChild`) and the world matrices.
- TexturePacking.FirstFit: of the unsigned arithmetic of the scan only the difference of the sizes wraps around; sums of a position and a size do not, because the first free position is at most the sum of the widths placed.
- The choice of the atlas size, the mapping of the coordinates, and the layers of a bitmap other than the first, which are blitted in the same places.
- Bitmaps.Bitmap.Blit: does not model compressed formats, since the callers blit RGBA; an empty source copies nothing, whereas the unsigned test of line 2667 would let it through in the first column.
- Allocation of ports, alternate lookups and the text of the log in the naming service; addresses are reduced to their network and machine.
- AdminExecutors.AdminExecutor.AddRequest: the parsing of the request into destinations and commands, and of names, is left to the caller, as is what the commands do to processes.
- Pings, alarms, graphs, launching of services and the ownership of `AliasName` in the admin executor service.
- AnimationSets.AnimationSet.Build: requires animations that are not compressed yet and, with header optimisation, each animation with tracks once in the set, as the assertion of line 456 of `animation.cpp` does. SSS shapes and sample division are not modelled.
- Tangents, normals, noise and `applyMatrix` of Bezier patches.
- Copy construction of lists and nodes, which does nothing.
