# Helios host logic, verified

Helios is an inference engine for one sequence at a time on GPUs. This project models the control logic that runs on
its host, and the few kernels whose correctness is a matter of order rather than of numbers, and proves what they
promise. Numeric kernels are uninterpreted functions throughout.

* **The prefix-cached session** (`Transformer`, `PoolRing`, `ImageInputs`, `PrefixPolicy`, `Captures`, `Session`). A
  layer is either a recurrence (KDA) or attention over planes addressed by position (MLA, with a ring of raw rows
  and pool keys of four). `Session.Serve` states the result: any sequence of requests, with any prompts, images and
  limits, is answered as by an engine that has just been reset. `Captures` says exactly when the snapshots taken on
  the way keep a later request close to where it diverges.
* **The snapshot copies** (`SnapshotStreams`). Captures and restores run on two FIFO streams joined by events; the
  protocol is a state machine and its theorems hold for every interleaving.
* **The expert slots** (`ExpertArena`, `SlotManager`, `MoeStep`, `MoeLayer`). From the tensors of a checkpoint to
  the pointer that the kernel follows: layout, arena, slots, eviction, queued copies, pointer tables, whole runs of
  steps, and when a row's result depends on the row alone.
* **The output parser** (`Strings`, `Utf8`, `ToolCalls`, `OutputParser`, `ChatTexts`, `ChatStream`). A streaming
  lexer that holds back what could still become a marker agrees with reading the whole text, for every way of
  cutting it; what reading a whole text means is said in strings alone; tool calls survive being written and read;
  the split of characters over tokens does not show.
* **The expert sums** (`Counting`, `MoeRouting`, `ExpertTickets`, `MoeSums`). A counting sort with atomic cursors
  under any schedule, a fused kernel whose groups draw experts by ticket, a reduction that cancels the schedule, and
  the dense path as a second way to the same sum.
* **The tokenizer** (`ByteSymbols`, `Pretokenizer`, `SplitPattern`, `Tokenizer`) and **Base64** (`Base64`,
  `Arithmetic`).

Code that changes state step by step is modelled by methods and classes, each proved against a specification
function; the theorems are about those functions. The functions that both sides rest on (what enters the model for
a token, a census, a pair's rank, a marker's effect) have lemmas that say what they are in the terms of their
parameters alone. Kernels whose threads run in any order are methods that pick the
next thread, block or step arbitrarily. `dafny verify dfyconfig.toml` checks everything.

Parameters of the model, in place of code that cannot be seen from here: the layers' kernels, the sampler and the
client's decision to go on (`Session.GenParams`), the checkpoint's tensors (`ExpertArena.Checkpoint`), whether the
census is ranked anew at the end of a step, the Unicode tables, the vocabulary, and the bytes of each token.

Where the code differs from its documentation, or from what a caller might expect, the model follows the code:

* `image_prefix_limit` is described as invalidating the suffix from a changed image. With overlapping images it can
  overlook a change; `Session.StaleImage` is a run in which it does, and `ImageInputs` has the exact condition.
  `Session.Serve` therefore asks that of two requests in a row one has images that agree where they overlap, or both
  have the same.
* The bound on how far a divergence rewinds holds if and only if the prefill began before the checkpoint that was
  pending (`Captures.CoverageIff`); an extension that starts later leaves its start uncovered (`Session.LateTurn`).
* The bound on what a repeated prompt replays holds if and only if the first prefill leaves a snapshot at the
  prompt's last pool boundary. It does not if it began behind that boundary and found no snapshot there, as on an
  ordinary second turn (`Session.SecondTurn`), or if a capture at the very end takes the snapshot's slot;
  `Captures.TailIsLiveIff` has the exact condition, and `Session.Resend` the consequence for requests.
* Prefix reuse takes it for granted that a layer's row does not depend on the rest of its chunk. With fewer slots
  than the active experts of a chunk it does, since the last experts are then served as zeros
  (`MoeLayer.LastExpertIsLost`); the results of `Session` are about layers without that, and `MoeLayer` proves that
  a sparse layer is one whenever the slots suffice, for instance with as many slots as experts, or as routes in the
  largest chunk, and exactly what happens otherwise.
* The tokens remembered for a piece are shared by all tokenizers of a thread and do not say whose they are
  (`Tokenizer.TwoVocabularies`); with one vocabulary, as the server has, this is sound.
* A stop string withholds the delta that completes it and those behind it in the same piece from the stream, but not
  from the final answer, and what the parser still held back is sent nevertheless (`ChatStream.Generate`).
* The pretokenizer's rule for white space before a word takes off one byte, not one character; `Pretokenizer` says
  exactly when this cuts a character, and `SplitPattern` exactly when it departs from the regular expression the
  rules stand for. No byte is lost by it, since pieces are tokenized as bytes.

## Model

| member | source | states |
|---|---|---|
| Transformer.LayerOutIsCausal | src/engine/runner.cpp:1004-1061 | A layer's output at a position depends on the inputs up to it only: the outputs of a prefix are the prefix of the outputs. |
| Transformer.ForwardIsCausal | src/engine/runner.cpp:995-1001 | The same for any number of layers stacked, which is what makes rows computed for an earlier request reusable. |
| Transformer.PoolsOfPrefix | src/cuda/attn/attn.cu:330-390 | The pool keys of a prefix are the leading pool keys of the whole, one per four rows. |
| Transformer.KdaRecurs | src/engine/runner.cpp:1004-1061 | A KDA layer starts from its zero state; at every input it emits from the state before it and that input, and steps on. |
| Transformer.MlaAttends | src/cuda/attn/attn.cu:330-390 | An MLA layer attends from every position to the rows up to it and to one key for each four complete ones. |
| Transformer.StackIs | src/engine/runner.cpp:995-1001 | Each layer is given what the one below puts out, the first one the inputs. |
| PoolRing.NoCollision | src/engine/cache.cpp:7-14 | Two different positions less than a ring apart never share a ring slot. |
| PoolRing.WindowIsInjective | src/engine/cache.cpp:7-14 | No two positions that one call reads or writes collide modulo the ring size. |
| PoolRing.SlotIs | src/engine/cache.cpp:7-14 | The first positions have the slots of the same numbers, and a ring further on they come again. |
| PoolRing.KpoolWrite | src/cuda/attn/attn.cu:332-390 | Whatever order the blocks of the kernel run in, the ring holds the new rows and every group completed by the call gets the pool key of its four members, old and new. |
| PoolRing.LaunchExtends | src/cuda/attn/attn.cu:332-390 | If a layer's planes hold the history, then after a call they hold the history extended by the chunk, however earlier calls split the group that is still open. |
| PoolRing.RewindKeepsPlanes | src/engine/runner.cpp:300-307 | Going back to a position that is a multiple of four leaves planes that hold the shorter history. |
| PoolRing.RewindNeedsAlignment | src/engine/prefix.hpp:75-77 | Going back to an unaligned position does not: twenty inputs, run in two launches on a ring of sixteen rows, leave planes that hold all twenty but not the first two. |
| PoolRing.RowAttends | src/engine/runner.cpp:300-307 | Attention over the planes, bounded by the query position, gives the row that a forward pass over the whole history gives, whatever stale rows lie beyond. |
| PoolRing.LayerStep | src/engine/runner.cpp:1004-1061 | One layer over one chunk turns the hidden rows of one depth into those of the next, and keeps its planes in step with the history. |
| ImageInputs.PrefixLimit | src/core/vision.cpp:18-33 | The limit is at most the start of every image that one request has and the other has not, and is either such a start or the largest integer. |
| ImageInputs.ImagePrefixLimit | src/core/vision.cpp:18-33 | The nested loops over both lists compute that limit. |
| ImageInputs.ReuseIsSound | src/engine/runner.cpp:964-974 | Below the limit every position receives the same image row, or none, under both requests' images, if the two lists are equal or one of them is unambiguous. |
| ImageInputs.DisjointIsUnambiguous | src/core/vision.cpp:18-33 | Images that do not overlap are unambiguous. |
| ImageInputs.OverlapEscapesTheLimit | src/core/vision.cpp:18-33 | For overlapping images soundness fails: two images of any width over one position, listed in another order, leave the limit at the largest integer, and yet the row there changes. |
| ImageInputs.LimitIsRightIffUnambiguous | src/core/vision.cpp:18-33 | Images are unambiguous if and only if, whatever other images a request comes with, every limit at or below the starts of the changed images is right: no row below it differs. |
| ImageInputs.ChannelAt | src/engine/runner.cpp:968-972 | The row at a position is the image's row as many rows in, channel by channel. |
| ImageInputs.WellFormedIff | src/engine/runner.cpp:1540-1544 | An image is accepted if and only if it covers prompt positions only, at least one, with a row of the model's width for each. |
| PrefixPolicy.PrefixPlan | src/engine/prefix.hpp:43-78 | The plan's shared length is the longest common prefix within the limits; the resume point is the whole resident state, or the newest usable snapshot not above the divergence, or 0. |
| PrefixPolicy.CheckpointBefore | src/engine/prefix.hpp:19-21 | A pool boundary strictly before the end, and at most four before it. |
| PrefixPolicy.PlanIsSafe | src/engine/prefix.hpp:41-78 | Whatever the plan, the resident tokens below the resume point are the prompt's, at least one prompt token is left to run, and a resume that is not an extension is a multiple of four. |
| PrefixPolicy.DiscardSuffix | src/engine/prefix.hpp:23-32 | Snapshots above the resume point are emptied, all others stay, and the result is the latest one left. |
| PrefixPolicy.PlanIsDetermined | src/engine/prefix.hpp:43-77 | Every plan resumes where a function of the resident tokens, the ring, the prompt and the limit says: at the end of what is resident if the prompt extends it, else at the newest usable snapshot not above the divergence. |
| PrefixPolicy.ResendReplaysTail | src/engine/prefix.hpp:52-70 | A prompt that is wholly resident resumes at the newest snapshot below its last token, which is its last pool boundary if and only if there is a snapshot there or nothing to restore; it is never an extension. |
| Session.Runner.constructor | src/engine/runner.cpp:270-282 | A new engine is valid and holds the empty history. |
| Session.Runner.Reset | src/engine/runner.cpp:284-297 | After a reset the engine is as good as new, although the planes still hold stale rows. |
| Session.Runner.SnapCapture | src/engine/runner.cpp:338-353 | A capture at an aligned position stores the recurrent states of exactly that many inputs in the next slot of the ring; an unaligned one changes nothing. |
| Session.Runner.Rewind | src/engine/runner.cpp:355-378 | Carrying out a plan leaves planes that hold the first inputs of before, up to the resume point; only a fresh start forgets history and snapshots already here. |
| Session.Runner.PrefixBegin | src/engine/runner.cpp:362-385 | The plan is made and carried out; the engine stays valid and the resident tokens are the prompt's. |
| Session.InjectImages | src/engine/runner.cpp:964-974 | Every row of the chunk is replaced by the row of the last image that covers its position, and kept if none does. |
| Session.Forward | src/engine/runner.cpp:995-1001 | Embedding, images and all layers over one chunk: every layer's planes hold the longer history and the rows are those of a single forward pass over it. |
| Session.FeedEnters | src/engine/runner.cpp:994-996 | What enters for the tokens of a history, position by position: where there is no image the token's own embedding, else the row of the last image in the list that covers the position. |
| Session.TokensEnter | src/engine/runner.cpp:995 | Without images every position gets the embedding of its own token. |
| Session.PromptsEnterApart | src/engine/runner.cpp:995 | If different tokens have different embeddings, no two prompts without images enter alike. |
| Session.LogitsAre | src/engine/runner.cpp:1402-1416 | The logits are the head's, of the last row that leaves the last of the layers, each given what the one below puts out. |
| Session.Runner.RunChunk | src/engine/runner.cpp:976-1002 | A chunk appends its inputs to what the planes hold: the embedding of each token, or under an image the row of the image on top. Its hidden rows are the last rows of a full forward pass. |
| Session.Runner.FinalHead | src/engine/runner.cpp:1402-1416 | The logits are those after the last position, not the first of the chunk. |
| Session.Runner.CaptureIfDue | src/engine/runner.cpp:1469-1471 | A snapshot is taken exactly where the walk of the prefill has its next capture. |
| Session.Runner.Prefill | src/engine/runner.cpp:1426-1486 | The suffix enters the planes in non-empty chunks, cut at checkpoints, up to the capacity; history, inputs and logits are those of the extended prompt, and ring, write position and latest snapshot are those that the captures of this prefill leave of the ones before. |
| Session.Runner.Decode | src/engine/runner.cpp:1524-1534 | Decoding appends its tokens to history and inputs and leaves the logits after them. |
| Session.Runner.Resume | src/engine/runner.cpp:1547-1556 | The resident tokens become the prompt's up to the resume point, which with ring, write position and latest snapshot is a function of the engine before; the inputs kept are those of a cold engine if the cached images and the new ones are compatible or nothing is kept. |
| Session.Runner.Ingest | src/engine/runner.cpp:1547-1558 | After the prompt has been taken in, the history is the prompt's, cut at the capacity, whatever was resident before, and so are the inputs if the images are compatible; where it resumed and what the ring then holds are functions of the engine before. |
| Session.Runner.Generate | src/engine/runner.cpp:1536-1592 | The tokens returned are those of an engine without history, if the cached images and the new ones are equal or one list is unambiguous, or nothing is reused; image errors are reported in exactly the cases of the source; resume point, ring and history are given by the engine before and the tokens returned. |
| Session.Serve | src/engine/runner.cpp:1536-1592 | Every request of every sequence of requests is answered as by a freshly reset engine, if of any two accepted requests in a row the image lists are equal or one is unambiguous. |
| Session.ColdAnswerIff | src/engine/runner.cpp:1562-1574 | The cold answer is the one and only sequence of tokens in which each is the sampler's choice given all inputs and tokens before it, another one comes after each but the last, and none after that: the limit or the context is used up, the client has had enough, or the choice is the end token. |
| Session.Resend | src/engine/runner.cpp:1446-1472 | Whatever was resident before and whatever was generated, the same prompt with the same images resumes at the newest snapshot that the first prefill leaves; that is its last pool boundary, so that one to four tokens are replayed, if and only if a condition holds of the engine before the first request. |
| Session.Branch | src/engine/runner.cpp:1446-1472 | A second request that shares exactly c tokens with the first resumes at the newest snapshot at or below c that the first prefill leaves: in terms of the engine before the first, less than one rounded interval below c if its captures reach there, and at least one below if it began too late and c is where it began. |
| Session.ResendOnFresh | src/engine/runner.cpp:1446-1472 | On an engine without history the repeated prompt resumes at its last pool boundary if and only if that is 0, there are two slots, or there is one and no capture falls due at the prompt's end. |
| Session.BranchOnFresh | src/engine/runner.cpp:1446-1472 | On an engine without history whose ring has a slot for every interval of the first prompt, the second resumes less than one rounded interval below where they part. |
| Session.SecondTurn | src/engine/runner.cpp:1450-1471 | The replay bound fails on an ordinary second turn: five tokens decoded to nine, then those nine and one more; the ten sent again resume at 4 instead of 8. |
| Session.LateTurn | src/engine/runner.cpp:1450-1471 | Coverage fails after a late start: three tokens decoded to nine, then those nine and one more; what parts after nine resumes at 0, with an interval of eight. |
| Session.StaleImage | src/engine/runner.cpp:1547-1556 | With two images over one position, listed the other way round in a second request for the same prompt, the first request's row is kept and the engine's inputs are not those of the images it has cached. |
| Session.UnambiguousFlows | src/engine/runner.cpp:1536-1558 | Images that never disagree are enough for that theorem, whatever the order of the requests. |
| Session.ReusedInputs | src/engine/runner.cpp:1545-1558 | A prefix kept under other images is the prefix those images would have produced. |
| Captures.ChunkSize | src/engine/runner.cpp:1450-1457 | A chunk is never empty, never longer than the largest chunk or what is left, and never crosses a checkpoint ahead of it; if it is shorter than both it ends at one. |
| Captures.CaptureStep | src/engine/runner.cpp:1450-1471 | A capture keeps everything the ring is relied on for: captures in order, each due when it was taken and none missed, at most one rounded interval apart if the prefill began before the pending checkpoint. |
| Captures.TakenIsTracked | src/engine/runner.cpp:1448-1486 | All captures of a prefill, as a function of how it begins and of the chunk size, are tracked: in order, each due, none missed, spaced unless the start was late. |
| Captures.NewestAreLive | src/engine/runner.cpp:347-352 | After any number of captures the ring still holds the newest ones, as many as it has slots. |
| Captures.CapturesFit | src/engine/runner.cpp:1469-1471 | A ring with a slot for every interval of the prefill holds all of its captures. |
| Captures.DivergenceResumesNear | src/engine/runner.cpp:1448-1472 | After a prefill that began before the pending checkpoint, a prompt that diverges at L resumes less than one rounded interval below L: from the latest earlier snapshot on if that is live and no capture has been lost, else from the oldest capture on that is still in the ring. |
| Captures.LateStartIsUncovered | src/engine/runner.cpp:1448-1472 | After a prefill that began at or behind the pending checkpoint, a divergence at its start resumes a whole rounded interval or more below. |
| Captures.CoverageIff | src/engine/runner.cpp:1448-1472 | With captures that fit and a live starting snapshot, every divergence from that snapshot to the end is covered if and only if the prefill began before the checkpoint that was pending. |
| Captures.TailIsLiveIff | src/engine/runner.cpp:1446-1472 | The last pool boundary before the end has a snapshot when the prefill is over, or needs none, if and only if a condition on start, end, interval and ring holds: a capture falling due at the very end may take its slot. |
| Session.RewoundPlanesHold | src/engine/runner.cpp:355-360 | Loading a snapshot taken at an aligned position makes every layer hold exactly the shorter history. |
| SnapshotStreams.StreamsRefineSequential | src/engine/runner.cpp:314-360 | For every interleaving of host, compute stream and copy stream, what all queued work amounts to is what the operations give one after another. |
| SnapshotStreams.StagingIsNeverOverwritten | src/engine/runner.cpp:338-349 | At no reachable state does the compute stream write the staging buffer while a copy out of it is unfinished. |
| SnapshotStreams.RestoreLoadsRecordedState | src/engine/runner.cpp:355-360 | A restore always reads a slot whose copy has finished, holding the state recorded for its position, also after the slot has been used again. |
| SnapshotStreams.LaunchesAdvance | src/engine/runner.cpp:314-360 | On the sequential machine launches advance the state one after another, and the position by their rows. |
| SnapshotStreams.RestoreUndoes | src/engine/runner.cpp:338-360 | On it a capture, any launches and the restore of its slot bring state and position back, and the next capture goes to the next slot of the ring. |
| SnapshotStreams.MoveInv | src/engine/runner.cpp:314-360 | Every move of either stream or the host keeps the protocol's invariant. |
| SnapshotStreams.QueuesDrain | src/engine/runner.cpp:314-360 | After any run, host and streams stop after a bounded number of further moves, and when none is enabled nothing is queued and the device and every taken slot hold what the sequential machine says: no reachable state is stuck. |
| ExpertArena.ExpertLayout | src/core/expert_layout.cpp:49-54 | Offsets follow one another, each projection padded to 64 bytes, and the stride closes the last one. |
| ExpertArena.PiecesAreDisjoint | src/core/expert_layout.cpp:49-53 | The twelve pieces of a slab do not overlap and stay inside it. |
| ExpertArena.ProjectionsAreAligned | src/core/expert_layout.cpp:49-53 | Each projection and the next slab start on a 64-byte boundary. |
| ExpertArena.OffsetsAre | src/core/expert_layout.cpp:49-54 | Each piece ends where the next one starts, except that every fourth one is followed by the next multiple of 64. |
| ExpertArena.PlanArena | src/core/model.cpp:263-286 | The loop computes each sparse layer's base in bytes and its first expert, the total size, and a slot stride that is the widest slab. |
| ExpertArena.SlabsAreDisjoint | src/core/model.cpp:263-286 | Slabs of different experts do not overlap, across layers too. |
| ExpertArena.SlabsTile | src/core/model.cpp:263-286 | Every byte of the arena lies in some expert's slab. |
| ExpertArena.SlabsFollow | src/core/model.cpp:263-286 | The first slab is at the start of the arena, and every other one right behind that of the expert before it, across layers too. |
| ExpertArena.LoadArena | src/core/model.cpp:233-252 | After loading, every expert's slab holds its own twelve tensors. |
| ExpertArena.SlotIsFilled | src/core/model.hpp:135-137 | A slab copied into a slot makes the slot hold that expert. |
| ExpertArena.OtherSlotStays | src/core/model.hpp:135-137 | ... and leaves every other slot as it was. |
| SlotManager.SlotMgr.InitFromPool | src/engine/slotmgr.cpp:32-76 | The manager starts valid, with every slot free and nothing held or in flight. |
| SlotManager.ChooseVictim | src/engine/slotmgr.cpp:206-242 | The victim is a free slot, else an unpinned one that minimises (census, heat), else the least recently used; none exactly when all are busy. |
| SlotManager.CensusCounts | src/engine/slotmgr.cpp:114-119 | The census of an expert is the number of requests for this layer and this expert in the whole run, on top of those on record, saturating; no other request counts. |
| SlotManager.VictimIsRequestedLeast | src/engine/slotmgr.cpp:213-231 | When no slot is free, the victim is, of the unpinned ones, that with the fewest requests over the whole run, and with the least heat among those. |
| SlotManager.SlotMgr.Find | src/engine/slotmgr.cpp:187-204 | The slot of a resident expert or -1; a hit is a use of that slot alone: new time, saturating heat, pinned exactly if hot and either pinned before or within the bound, and the pin count follows. |
| SlotManager.SlotMgr.EvictOne | src/engine/slotmgr.cpp:206-242 | The right victim is emptied, unmapped and busy; map and slots stay inverse to one another. If no slot was free, its expert is the one with the fewest requests since the manager was made, on top of those on record, among those that may go, and the least heat among equals. |
| SlotManager.SlotMgr.StartCopy | src/engine/slotmgr.cpp:244-263 | The copy of an expert's slab is queued behind the others. |
| SlotManager.SlotMgr.Acquire | src/engine/slotmgr.cpp:265-321 | A resident key is used once more and nothing else changes. A missing one gets the slot of the right victim, chosen among the slots as they were or, if all were busy, as they are once the copies have landed; it is refused exactly when all are busy then. |
| SlotManager.SlotMgr.SyncCopies | src/engine/slotmgr.cpp:323-336 | All queued bytes have landed in order, and only slots that the step does not hold are let go. |
| SlotManager.SlotMgr.Reserve | src/engine/slotmgr.cpp:340-346 | A resident slot becomes held by the step, once. |
| SlotManager.SlotMgr.EndStep | src/engine/slotmgr.cpp:348-356 | Everything the step held is let go and holdings and pins stay; the ranking changes only when it is made anew. |
| SlotManager.SlotMgr.ForceResident | src/engine/slotmgr.cpp:121-142 | When the step holds every slot, forcing a missing expert in changes nothing; otherwise the least recently used slot it does not hold is let go and the expert acquired as above, which cannot fail. |
| SlotManager.SlotMgr.NoteRequest | src/engine/slotmgr.cpp:114-119 | The request is on the record of the run; the census entry of its layer and expert goes up by one, saturating, and no other one changes. |
| SlotManager.SlotMgr.RecomputeHot | src/engine/slotmgr.cpp:85-99 | The entries marked hot are as many as may be pinned, or all that were requested, and no expert that is left out was requested more often than one that is hot. |
| SlotManager.CopySettles | src/engine/slotmgr.cpp:244-263 | Queueing one more copy keeps the promise that every occupied slot will hold its expert's bytes once the queue has drained. |
| MoeStep.AcquireActive | src/engine/runner.cpp:786-805 | At the end of the acquire loop the step holds the first active experts, as many as there are slots, in distinct slots, and nothing found or fetched earlier has been evicted. |
| MoeStep.HoldOne | src/engine/runner.cpp:789-802 | One turn of that loop: found and reserved, fetched, or refused because the step itself holds every slot. |
| MoeStep.Resolve | src/engine/runner.cpp:807-842 | The forcing pass leaves map, bytes and what is held alone; the experts still missing are those beyond the number of slots. |
| MoeStep.BuildTables | src/engine/runner.cpp:843-867 | Each word is the address in the expert's slot, or in the zero slab if it has tokens but no slot, or null; the words of table 3j+k are those of the projection j's trellis, suh or svh, by the offsets 4j+k. |
| MoeStep.HeldIsLaunchable | src/engine/runner.cpp:804-866 | What the step holds, with no copy in flight, is what a launch relies on: each entry of an expert with tokens reaches that expert's own tensor bytes, and the rest stay inside the zero slab. |
| MoeStep.LaunchReachesTensors | src/engine/runner.cpp:854-866 | The words 3j+k of an expert with tokens lead to the tensor 4j+k of that expert: trellis, suh and svh of the gate, up and down projection; if it has no slot, to that offset of the zero slab. |
| MoeStep.Step | src/engine/runner.cpp:786-955 | One step from a quiet manager to a quiet manager, with a launch that is given what it relies on in the manager's own pool, which has changed by copies of slabs into slots alone. |
| MoeStep.RunSteps | STATUS.md:1593-1634 | In every run of steps every launch finds each of its experts' bytes in the pool, as far as the slots go, and each pool has come by copies from the one before: the recorded eviction of an expert about to be read cannot recur. |
| MoeStep.LoadAndRun | src/core/model.cpp:233-286 | From the sizes of the tensors on: layouts, arena, loading and a pool of uninitialised memory give a run in which every launch finds its experts' tensors in a pool that has come by copies from that memory. |
| MoeLayer.LaunchServes | src/engine/runner.cpp:843-877 | What the kernel reads of an expert with tokens is its own nine pieces if it is among the first active experts, as many as there are slots, and zeros otherwise. |
| MoeLayer.ReadsTensors | src/engine/runner.cpp:843-877 | What the kernel reads of a kept expert at 3j+k is that expert's tensor 4j+k. |
| MoeLayer.ReadsBlanks | src/engine/runner.cpp:849-866 | What it reads of an expert without a slot is as many blank bytes. |
| MoeLayer.RowIs | src/engine/runner.cpp:882-960 | A row is summed by rank from zero on, each expert's result times its own weight, and the shared expert comes last. |
| MoeLayer.MoeFfn | src/engine/runner.cpp:768-960 | For every routing of the rows, every state of the slots and every order of the kernel's groups, each row gets the fold of its experts by rank over what those experts are served, and the shared expert. |
| MoeLayer.MoeChunks | src/engine/runner.cpp:768-960 | If no chunk has more active experts than there are slots, the rows come out as if each were computed alone, however they were cut into chunks. |
| MoeLayer.RowStandsAloneIff | src/engine/runner.cpp:826-855 | A row is a function of the row alone, whatever the kernels, if and only if all the experts it is routed to are served their own pieces. |
| MoeLayer.ReadsOwnIff | src/engine/runner.cpp:843-877 | What the kernel reads of an expert with tokens is that expert's own pieces if and only if it is among the first active ones, as many as there are slots, or is all zeros itself. |
| MoeLayer.LastExpertIsLost | src/engine/runner.cpp:826-855 | A chunk with one more active expert than slots: its last row comes out differently from the same row in a chunk of its own. |
| MoeLayer.ShortChunksFit | src/engine/runner.cpp:150-156 | A chunk no longer than the kernel's buffer has no expert with too many tokens, if a row's experts are different. |
| MoeLayer.MoeFfnDense | src/engine/runner.cpp:882-916 | The dense path aborts if and only if the chunk has more active experts than there are slots, and otherwise gives each row its own experts in ascending order of number, and the shared one. |
| MoeLayer.DenseRowIsAlone | src/engine/runner.cpp:882-916 | When the order of summands does not matter, that is the row alone, as on the grouped path. |
| MoeLayer.SmallChunksFit | src/engine/runner.cpp:884-892 | A chunk has at most as many active experts as there are experts, or as it has routes. |
| Utf8.CompletePrefix | src/engine/utf8.hpp:28-43 | The scan returns the length of the longest prefix of complete characters. |
| Utf8.CompleteIsLongest | src/engine/utf8.hpp:25-43 | No longer prefix consists of complete characters. |
| Utf8.CompleteAfterWhole | src/engine/utf8.hpp:25-43 | Complete characters in front do not change what is complete behind them. |
| Utf8.MasksAreRanges | src/engine/utf8.hpp:17-24 | The bit masks of the source select the byte ranges of the model. |
| Utf8.LeadBytes | src/engine/utf8.hpp:17-24 | The length of a character by the masks of its first byte. |
| Utf8.Sanitize | src/engine/utf8.hpp:48-65 | The loop computes the specified replacement. |
| Utf8.MalformedIsReplaced | src/engine/utf8.hpp:45-65 | The first byte that starts no complete character becomes EF BF BD, and the scan goes on behind it unless the text breaks off inside the character. |
| Utf8.SanitizedIsWhole | src/engine/utf8.hpp:45-65 | The result always consists of complete characters, and a text that already does is not changed. |
| ToolCalls.ReadArgs | src/core/chat.cpp:246-270 | The loop makes the object of the arguments up to the first one that is not closed. |
| ToolCalls.LastValueWins | src/core/chat.cpp:246-270 | In that object a key has the last value given for it and stands where it first occurred. |
| ToolCalls.MembersReadBackIff | src/core/chat.cpp:69-80 | The members of a written call are read back if and only if each value comes back on its own, which a string that is itself JSON does not. |
| ToolCalls.AppendArgs | src/core/chat.cpp:69-80 | The loop writes every member between its tags, in order, strings raw and other values as JSON; null writes nothing, and what is no object is written as JSON. |
| ToolCalls.CallArgsReadBack | src/core/chat.cpp:246-270 | Written arguments are read back in order, if keys and values do not contain their own closing tags. |
| ToolCalls.NameReadBack | src/core/chat.cpp:272-275 | A name that does not open an argument is read back, but for white space around it. |
| ToolCalls.BodyIsOpen | src/core/chat.cpp:170-180 | A call whose parts do not contain the closing tag does not contain it anywhere. |
| OutputParser.MarksDiffer | src/core/chat.cpp:224-232 | No marker is a prefix of another. |
| OutputParser.HoldbackLen | src/core/chat.cpp:234-244 | The length of the longest end that is a proper prefix of some marker. |
| OutputParser.HeldIsSafe | src/core/chat.cpp:234-244 | Nothing in front of that end can become a marker, whatever text follows. |
| OutputParser.FoundIsFirst | src/core/chat.cpp:348-363 | The earliest marker found stays the earliest, whatever text follows. |
| OutputParser.EarliestMark | src/core/chat.cpp:348-363 | The first marker in the range that may be read, over all marks that count outside a tool call. |
| OutputParser.OutputParser.Drain | src/core/chat.cpp:316-412 | Consuming the buffer leaves a state that agrees with the old one on every continuation; deltas account for the change, and what is held back could still become a marker. |
| OutputParser.OutputParser.Feed | src/core/chat.cpp:287-293 | Feeding a piece is reading it behind what was fed before; after a turn boundary nothing counts. |
| OutputParser.OutputParser.Finish | src/core/chat.cpp:295-314 | The rest is flushed and an unterminated call closed; no turn boundary first appears here. |
| OutputParser.ParseOutput | src/core/chat.cpp:414-419 | One-shot parsing is the left-to-right reading of the whole text. |
| OutputParser.Stream | src/core/chat.cpp:287-419 | For every text and every way to cut it, the streamed result and the stop decision are those of the whole text, and the deltas add up to the result; whole characters in, whole characters out. |
| OutputParser.NextReceived | src/core/chat.cpp:316-412 | What a client has after one more delta: its texts behind the others, and a call if it begins one. |
| OutputParser.CallIdsAreDistinct | src/core/chat.cpp:277-283 | No two calls of a turn have the same id, an unterminated one included. |
| OutputParser.CallReadBack | src/core/chat.cpp:170-180 | A call written as the template writes it is parsed into the same name, stripped, and the object of its arguments. |
| ChatTexts.ReasoningThenContent | src/core/chat.cpp:374-382 | For texts without markers: what stands before </think> is reasoning if the turn starts in it, what stands behind is content, and the tag is neither. |
| ChatTexts.BoundaryEndsTurn | src/core/chat.cpp:386-409 | Each of the six boundary tags ends the turn wherever it stands outside a call: only what is before it counts, whatever follows. |
| ChatTexts.PlainTurn | src/core/chat.cpp:370-409 | A turn of plain text ended by one of the six is that text, as reasoning or content. |
| ChatTexts.OneCall | src/core/chat.cpp:246-283 | A call with one argument, letter by letter: its name without the white space around it, its key and value, the id call_0, and no content of it. |
| ChatTexts.CallCutShort | src/core/chat.cpp:295-314 | A call that the text does not close is read as if it were closed there, unless nothing has come of it. |
| ChatTexts.TagStartsAfresh | src/core/chat.cpp:348-382 | A tag counts whatever stands before it, the beginning of another tag included. |
| Strings.StripIs | src/core/chat.cpp:61-66 | Stripping takes off blanks, tabs and line ends at both ends, and nothing else. |
| Strings.DecimalReads | src/core/chat.cpp:277-283 | The number in a call's id is written in decimal digits of that value, without zeros in front. |
| ChatStream.Utf8Streamer.Push | src/engine/server.cpp:82-98 | The pieces add up to the complete characters of all decoded bytes, and each piece is whole characters. |
| ChatStream.Generate | src/engine/server.cpp:282-322 | The answer is that of the tokens read, whatever characters they split; the client gets every delta except those withheld at a stop string or after it has left, and reading ends at the first of these, at the end of the turn or of the tokens. If neither stop string nor client ends it, the answer, the deltas and the stop flag are those of all the bytes. |
| ChatStream.StoppedAt | src/engine/server.cpp:296-306 | Where a stop string ended the reading, the content that the client has and that of the delta withheld end with one of the stop strings. |
| ChatStream.NoneBefore | src/engine/server.cpp:296-308 | Before the end no delta completed a stop string or ended the turn, and the client stayed after each. |
| ChatStream.TextGrows | src/engine/server.cpp:74-81 | The complete characters of more tokens extend those of fewer. |
| ChatStream.EncodedTextIsAnswered | src/engine/server.cpp:282-322 | If the model writes the tokens of a text, the client gets that text, parsed. |
| ByteSymbols.ByteToSym | src/tokenizer/tokenizer.cpp:18-42 | The table built by the loops gives every byte the symbol of its code point. |
| ByteSymbols.SymToByte | src/tokenizer/tokenizer.cpp:43-47 | The inverse table knows exactly the symbols. |
| ByteSymbols.SymbolsDiffer | src/tokenizer/tokenizer.cpp:18-47 | Different bytes have different symbols. |
| ByteSymbols.SymbolIs | src/tokenizer/tokenizer.cpp:18-42 | The symbol of every byte, in bytes: printable ones are their own character, the 68 others are U+0100 to U+0143 in order. |
| ByteSymbols.DecodesCharacters | src/tokenizer/tokenizer.cpp:70-75 | The code point of one to four bytes, six bits from each but the first. |
| ByteSymbols.DecodesStrayByte | src/tokenizer/tokenizer.cpp:73-76 | A byte that starts no character, or starts one that the text breaks off, stands for itself. |
| ByteSymbols.OthersAreKept | src/tokenizer/tokenizer.cpp:279-284 | A character that is no symbol is read as itself. |
| ByteSymbols.SymbolIsDecoded | src/tokenizer/tokenizer.cpp:70-77 | Decoding one code point at a symbol takes exactly the symbol, whatever follows. |
| ByteSymbols.ReadSymbols | src/tokenizer/tokenizer.cpp:279-285 | The decoding loop of a token's name. |
| ByteSymbols.SymbolsReadBack | src/tokenizer/tokenizer.cpp:279-285 | Bytes written as symbols are read back. |
| Pretokenizer.InRanges | src/tokenizer/tokenizer.cpp:49-58 | Binary search finds a code point exactly if some range of the sorted table has it. |
| Pretokenizer.ClassesAre | src/tokenizer/tokenizer.cpp:59-68 | The ASCII characters that are newlines, blanks, letters, numbers and signs, one by one. |
| Pretokenizer.ClassesBeyond | src/tokenizer/tokenizer.cpp:49-68 | The blanks beyond ASCII, and letters and numbers as the tables have them. |
| SplitPattern.PieceIsFirstMatch | src/tokenizer/tokenizer.cpp:128-194 | In a text of complete characters a piece is the first match of the documented regular expression, under backtracking, if and only if no wide blank is cut at its end and it does not start with an overlong space before signs. |
| SplitPattern.PieceIsFirstMatchIff | src/tokenizer/tokenizer.cpp:128-194 | The same at any byte of any text where no overlong space starts: only the cut of a wide blank makes a difference. |
| SplitPattern.PiecesAreMatches | src/tokenizer/tokenizer.cpp:123-196 | The pieces of a text of complete characters are the successive matches of the expression if and only if none of them starts at such a place. |
| Pretokenizer.Pretokenize | src/tokenizer/tokenizer.cpp:123-196 | The pieces of a text. |
| Pretokenizer.PiecesTile | src/tokenizer/tokenizer.cpp:123-196 | The pieces are non-empty and follow one another from the first byte to the last. |
| Pretokenizer.PieceIsWholeUnlessBlankIsCut | src/tokenizer/tokenizer.cpp:123-196 | In a text of complete characters a piece ends inside a character if and only if the rule that leaves a blank to the next word takes off the last byte of a longer blank, or the rule for signs steps into an overlong space. |
| Pretokenizer.PieceCutsCharacter | src/tokenizer/tokenizer.cpp:188-189 | A piece can end inside a character: two ideographic spaces before a letter are cut at the fifth byte. |
| Tokenizer.Merge | src/tokenizer/tokenizer.cpp:205-214 | The loop computes the greedy merge: lowest rank first, leftmost among equals. |
| Tokenizer.MergedIsFinal | src/tokenizer/tokenizer.cpp:205-214 | When it ends, no two neighbouring symbols, with a byte 1 between them, have an entry below INT32_MAX in the table of merges. |
| Tokenizer.MergedIsRun | src/tokenizer/tokenizer.cpp:205-214 | Merging is the run in which every step joins, of all neighbours in the table, those of the least entry and the leftmost of them, until there are none. |
| Tokenizer.MergeRunExists | src/tokenizer/tokenizer.cpp:205-214 | From every list of symbols there is such a run. |
| Tokenizer.TwoMerge | src/tokenizer/tokenizer.cpp:205-214 | Two symbols become one if the first, a byte 1 and the second have an entry below INT32_MAX, and stay two if not. |
| Tokenizer.PieceIsBytes | src/tokenizer/tokenizer.cpp:202-230 | Merging starts from one symbol for each byte of the piece. |
| Tokenizer.KnownSymbols | src/tokenizer/tokenizer.cpp:217-219 | A symbol of the vocabulary becomes its id. |
| Tokenizer.PieceOfKnown | src/tokenizer/tokenizer.cpp:215-230 | A piece that merges to symbols of the vocabulary becomes their ids, in order. |
| Tokenizer.BytesInstead | src/tokenizer/tokenizer.cpp:220-229 | One that is not gives way to its bytes, from the left; those that are no tokens either are dropped. |
| Tokenizer.MergedKeeps | src/tokenizer/tokenizer.cpp:205-214 | The merged symbols stand for the same bytes as the initial ones. |
| Tokenizer.FallbackReadsBack | src/tokenizer/tokenizer.cpp:220-230 | A symbol that is no token is spelled byte by byte without loss. |
| Tokenizer.PieceReadsBack | src/tokenizer/tokenizer.cpp:198-233 | The tokens of a piece spell the piece. |
| Tokenizer.Tokenizer.BpePiece | src/tokenizer/tokenizer.cpp:198-233 | The tokens of the piece if and only if the thread's cache has none or the right ones for it; what it computes is remembered for every tokenizer of the thread. |
| Tokenizer.TwoVocabularies | src/tokenizer/tokenizer.cpp:198-233 | Two tokenizers of one thread with different vocabularies: the second returns the first one's tokens. |
| Tokenizer.FirstIsLongest | src/tokenizer/tokenizer.cpp:250-255 | The first matching special token of the sorted list is a longest one. |
| Tokenizer.Tokenizer.Encode | src/tokenizer/tokenizer.cpp:235-266 | Special tokens where they match longest, from the left, and the tokens of the stretches between. |
| Tokenizer.SegmentIsPiecewise | src/tokenizer/tokenizer.cpp:238-247 | A stretch without special tokens is cut into pieces, and each is tokenized on its own. |
| Tokenizer.NothingSpecial | src/tokenizer/tokenizer.cpp:248-265 | A text in which no special token occurs is one such stretch. |
| Tokenizer.Decode | src/tokenizer/tokenizer.cpp:270-288 | Decoding appends the bytes of one token after another. |
| Tokenizer.SpecialsAreDropped | src/tokenizer/tokenizer.cpp:272-278 | Without special tokens kept, they are left out and nothing else changes. |
| Tokenizer.EncodedReadsBack | src/tokenizer/tokenizer.cpp:235-288 | For every byte string, decoding its tokens with special tokens kept gives the string, if all byte symbols are in the vocabulary and special tokens are apart from it. |
| Tokenizer.SpecialIsOneToken | src/tokenizer/tokenizer.cpp:247-262 | A special token written alone is encoded as one token. |
| MoeRouting.MoeCount | src/engine/glue2.cu:244-251 | The number of routes of each expert. |
| MoeRouting.MoeOffset | src/engine/glue2.cu:253-264 | The offset of an expert's block is the number of routes to smaller experts. |
| MoeRouting.StepKeepsGood | src/engine/glue2.cu:266-278 | Whichever thread moves next, places stay distinct and inside their experts' blocks, and what has been written stays right. |
| MoeRouting.Scatter | src/engine/glue2.cu:266-278 | For every interleaving of the threads' steps the routes end up as a bijection into their experts' blocks, with tokens and weights alongside. |
| MoeRouting.PermutedIsOnto | src/engine/glue2.cu:266-293 | Every sorted place belongs to some route. |
| ExpertTickets.DrawKeepsGood | src/cuda/quant/exl3_moe_kernel.cuh:252-270 | When a group draws a ticket, the expert of the one it gives up is complete, and every ticket is still held or worked off. |
| ExpertTickets.AllAreDone | src/cuda/quant/exl3_moe_kernel.cuh:39-272 | When every group has scanned to the end, every expert that the kernel runs is complete. |
| ExpertTickets.RunGroups | src/cuda/quant/exl3_moe_kernel.cuh:39-272 | Whatever order the groups advance in, the kernel ends, every expert with at most the buffer's number of tokens has its whole block written, and no other place is touched. |
| MoeSums.GroupedKernel | src/cuda/quant/exl3_moe_kernel.cuh:39-272 | Every sorted place holds the contribution of its own expert, token and weight, except for experts with too many tokens, whose places keep what the buffer held. |
| MoeSums.DifferentExpertsFit | src/engine/runner.cpp:150-156 | With different experts for a token, no expert has more tokens than the chunk. |
| MoeSums.ReduceSorted | src/engine/glue2.cu:297-313 | The reduction is a left fold from zero in the original order of ranks. |
| MoeSums.MoeGrouped | src/engine/glue2.cu:280-313 | For every schedule of the scatter and every order of the kernel's groups, and whatever the buffer held, each token gets the same value: the left fold of its own routes' contributions, if no expert has too many tokens. |
| MoeSums.GroupedSum | src/engine/glue2.cu:297-313 | That value, sum by sum: from zero on, in order of rank, the expert's result times the routing weight is added. |
| MoeSums.OneWriterPerRow | src/engine/glue.cu:62-75 | In one expert's block no token occurs twice, when each token's experts are distinct. |
| MoeSums.ScatterAdd | src/engine/glue.cu:62-82 | However the threads' reads and writes interleave, no addition is lost and no other row changes. |
| MoeSums.MoeDense | src/engine/runner.cpp:882-911 | The dense path adds up each token's contributions in ascending order of expert. |
| MoeSums.DenseSum | src/engine/runner.cpp:882-911 | The same for the dense path: from zero on, every expert in ascending order is added if the token chose it. |
| MoeSums.DenseIsGrouped | src/engine/runner.cpp:882-924 | For every addition in which the order of two summands does not matter, the two paths give the same sum. |
| MoeSums.ExactIsOrderFree | src/engine/runner.cpp:882-924 | Every associative and commutative addition is one. |
| Base64.DecodeText | src/core/vision.cpp:145-156 | For every text: it is rejected exactly if it is not alphabet characters followed by padding only; otherwise the bytes are the digits' bits taken in eights, although the accumulator wraps. |
| Base64.ShiftedBits | src/core/vision.cpp:153-154 | Wrapping around at 32 bits loses none of the bits still to be given out. |
| Base64.AlphabetIs | src/core/vision.cpp:147 | The alphabet of table 1 of RFC 4648. |
| Base64.FourDigitsMean | src/core/vision.cpp:153-154 | Four digits make three bytes, in the arithmetic of their values, three make two, two make one, and one makes none. |
| Base64.FoursFollow | src/core/vision.cpp:148-155 | Groups of four digits are decoded one after another. |
| Base64.EncodedReadsBack | src/core/vision.cpp:145-156 | Every non-empty byte string is read back from its encoding under section 4 of RFC 4648; the empty one is an error. |
| Base64.EncodedLength | src/core/vision.cpp:145-156 | The encoder makes the digits and padding that section 4 of RFC 4648 prescribes for each remainder. |

## Left out

- Layer-major prefill, which is opt-in and takes another route through the layers.
- Numeric kernels: attention, KDA, matrix products, quantised decoding, routing, sampling. A kernel gives each row
  as a function of that row's inputs, so effects of batch size on rounding are not modelled.
- Runner configuration: chunk size and snapshot interval are at least 1.
- Branches that cannot be reached are asserted away: the reset when the resume point exceeds the capacity, the third
  scan of `acquire`, the abort for a slab wider than a slot, the reserve after a successful forcing, and the
  three-byte symbols of `b2s`.
- `Slot.lastUsed`, the clock and positions are unbounded; heat and census counters have the source's widths.
- `recompute_hot` breaks ties in the order of the table, where `partial_sort` may choose otherwise.
- `SlotMgr::init`, the census file, statistics, diagnostics, profiling, debug dumps and wall-clock throttling.
- Rows of channels are single values in `MoeSums`; every channel is treated alike.
- JSON: the parser and the printers of values are parameters. Of the chat template only the tool call is modelled.
- Session.Serve: speaks of layers whose rows do not depend on the rest of the chunk; `MoeLayer` says when a sparse
  layer is one.
- Tool-call ids and all string lengths are unbounded.
- The fused kernel inside an expert: a group's blocks advance together between its barriers, and transforms and
  products are uninterpreted.
- Captures.DivergenceResumesNear: says nothing about a divergence below the oldest capture in the ring when captures
  have been lost or the starting snapshot's slot has been used again.
- HTTP, SSE and request parsing.
- `Utf8` follows the server's check, which accepts overlong forms and surrogates.
- Reading tokenizer.json: `Tokenizer.Loaded` and `Tokenizer.Consistent` say what is expected of it.
- SplitPattern: case folding in contractions is that of ASCII, as in the source's comparison of bytes.
- Base64: the checks of the URL around the encoded text, its 24 MiB limit, and running the vision encoder.
- The image embedding cache, safetensors, CUDA devices and allocation.
