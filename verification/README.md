# Alan, modelled in Dafny

Alan exposes an agent as a tree of files. This project models the state machines behind those files
and the algorithms beneath them, and proves what they keep over every run:

- **The agent file server** (`AgentFs*`, `ExpiryRecords`, `Knowledge`, `Frames`, `Utf8`): walk, open, read, write and
  clunk over a fid table, with an exclusive tape lease, ids allocated by opening `clone`, documents
  committed on clunk, per-handle read snapshots, write-once action outputs, qid versions, and a
  content-addressed checkpoint that must agree with a plain append-only stream. `AgentFs` gives each
  request as a function on the whole state; `AgentFsServer.Server` is the object that updates its fields
  in place, performs exactly those steps, keeps the invariant, and states what its callers rely on
  (`AgentFsGuarantees`, `AgentFsProjection`). `AgentFsCore` reduces every step to one of
  thirteen effects on the stored content, and the invariant is proved there once per effect.
- **The `/agent` overlay** (`Overlay*`): calls that drop the lock between checking and inserting, modelled
  as one atomic step per locked section and per backing call, with arbitrary interleaving.
- **The build-output lease** (`BuildLease*`): builders, nested builders and cleaners stepping over a table
  of advisory locks and ownership receipts, with the exclusive-to-shared downgrade as two steps (it is not
  atomic).
- **Tape, compaction, rollback and recovery** (`Messages`, `Retention`, `ContextDiff`, `Tape`, `Machine`,
  `Rollout`).
- **Codecs and policy paths** (`ProcessResult`, `UserInput`, `Paths`, `PathResolution`, `Text`).

## What turned out false

Each is kept as the code has it; the lemmas named give the input that breaks the property, or state
exactly when it holds.

- Request ids can repeat, in a build without overflow checks (one with them panics instead). Restoring
  request `r18446744073709551614` puts the 64-bit counter at its limit, so the next clones wrap to `r0` and
  overwrite it (`AgentFsWrap.WrapReusesId`). A step keeps the invariant
  iff it does not allocate at the limit (`AgentFsInvariant.StepKeeps`); run theorems assume that.
- An expiry record is meant to be structured, but its escaping leaves most control characters raw: it is
  JSON iff the cause (and the id) holds none but tab and line ends (`ExpiryRecords.ExpiryReads`).
- Not every change is announced: an output that expires changes without an event
  (`AgentFsEvents.ChangesAnnounced` has the exception).
- Qid versions are 32-bit and wrap, so "strictly increases" holds iff no wrap happens; a changed file
  always gets a different version (`AgentFsVersions.VersionSound`).
- A listing leaks its backing handle when `open` or `stat` fails after its walk succeeded
  (`OverlayLeak.LeakingRun`). Conservation is proved with the leaked handles accounted for, and the live
  handles are the named ones iff no such failure happens (`OverlayHandles.ConservationExactly`).
- A context snapshot with one id and two fingerprints breaks the diff, in both directions
  (`ContextDiff.DiffExact`). A line break in any field can hide a change too, because the fingerprint joins
  the fields by line breaks (`ContextDiff.LineBreakHidesChange`). A tape follows every snapshot iff it has
  neither (`ContextDiff.FollowsExactly`).
- Two rollbacks differ from one of the summed count in exactly one case (`Machine.RollbackComposes`).
- Path resolution trims its text again, so a last segment that ends in white space resolves elsewhere, and
  a blank first segment can turn a relative path absolute (`PathResolution.BlankSegmentEscapes`,
  `PathResolution.BlankIsLost`). `PathResolution.ResolveExact` says for every base and path whether the
  result is right.

## Assumptions

Hashing of blocks and nodes is collision-free (`Knowledge.CollisionFree`). Of JSON it is assumed only that
parsing undoes serializing, that serialized text holds no raw control byte, that a rollout record serializes
to non-empty text without white space at its ends, and that a strict non-empty prefix of a serialized object
fails at the end of input (`Rollout.Faithful`, `ProcessResult.Faithful`, `UserInput.Faithful`). Lower-casing
acts on each path segment by itself (`Paths.Casing`). The qid path hash, the order of ids in a listing, the
skills projection, the record of unknown skills and the fixed texts are parameters (`AgentFs.Env`); qid
paths may collide. The answers of backing servers, of the journal callback and of the checks a cleaner makes
are arbitrary.

## Model

| member | source | states |
|---|---|---|
| AgentFsInvariant.StepRefines | crates/agentfs/src/lib.rs:383-861 | Every request of the file server does to the stored content exactly what its one effect says, and the effect is admissible there. |
| AgentFsInvariant.StepKeeps | crates/agentfs/src/lib.rs:383-861 | A request keeps the whole invariant iff it does not allocate an id at the 64-bit limit. |
| AgentFsInvariant.RunKeeps | crates/agentfs/src/lib.rs:383-861 | Every run that never wraps a counter keeps the invariant. |
| AgentFsInvariant.InitialInv | crates/agentfs/src/lib.rs:249-285 | A new server satisfies the invariant. |
| AgentFsInvariant.StepHandles | crates/agentfs/src/lib.rs:383-861 | A request changes at most the one handle it names: binds, reworks or drops it; all other handles stay. |
| AgentFsCore.EffectKeeps | crates/agentfs/src/surface_state.rs:215-255 | An effect keeps tape and checkpoint, evidence, ids and settlement in agreement iff it does not wrap a counter. |
| AgentFsRuns.TapeRefinement | crates/agentfs/src/lib.rs:593-611 | After any run the tape is its start followed by the lease holders' writes in order, the bound checkpoint materializes to the same bytes, and the lease names exactly the live handle holding the tape for write. |
| AgentFsRuns.SecondWriterRefused | crates/agentfs/src/lib.rs:425-429 | While one handle holds the tape, any other write-open is refused and changes nothing, and no other handle holds it. |
| AgentFsRuns.TapeReadCoherent | crates/agentfs/src/lib.rs:531-549 | A tape read that starts from the checkpoint and finishes from the stream in a later state returns the tape's own bytes at its offset. |
| AgentFsRuns.InputIsFramed | crates/agentfs/src/lib.rs:726-738 | The input stream is the frames of the committed messages in clunk order. |
| AgentFsRuns.InputRoundTrip | crates/agentfs/src/lib.rs:635-667 | Decoding the input stream gives exactly the committed messages; decoding any part of it gives a prefix of them. |
| AgentFsRuns.RequestsSettle | crates/agentfs/src/lib.rs:739-773 | Over any run no request disappears, a settled one never changes, a response is present only if answered, and the id counter never goes back. |
| AgentFsRuns.DecidedForGood | crates/agentfs/src/request_control.rs:6-34 | Of racing responses and cancels the first to land decides for good. |
| AgentFsRuns.CloneIsFresh | crates/agentfs/src/lib.rs:440-463 | The next clone id differs from every id ever in use, restores included. |
| AgentFsRuns.OutputsEvolve | crates/agentfs/src/lib.rs:777-802 | Over any run a committed output stays as it is until it becomes an expiry record, and an expired one stays. |
| AgentFsRuns.EvidenceDurable | crates/agentfs/src/surface_state.rs:162-183 | Over any run a committed output reads back its exact bytes, or an expiry record; an expiry record reads back unchanged. |
| AgentFsRuns.OutputWriteOnce | crates/agentfs/src/lib.rs:777-802 | A second commit of an action's output is refused and changes nothing stored. |
| AgentFsRuns.ExpiryIsolated | crates/agentfs/src/lib.rs:319-348 | Expiry succeeds iff there is a committed output and the journal accepts; it leaves the tape and every other output as they read before, even when contents are shared; a failure changes nothing. |
| AgentFsReads.UntornReads | crates/agentfs/src/lib.rs:516-578 | A reader that starts at offset 0 gets nothing up to some read, and from there on, chunk by chunk, the file as it was at that read, whatever others do in between; for every handle, the root fid and reads of no bytes included. |
| AgentFsReads.UntornWhole | crates/agentfs/src/lib.rs:516-578 | The chunks concatenate to a prefix of that instant's file, and to all of it once a later read comes back empty. |
| AgentFsReads.CutWhole | crates/agentfs/src/lib.rs:930-934 | Slicing a file by successive counts loses and repeats nothing. |
| AgentFsVersions.VersionSound | crates/agentfs/src/surface_state.rs:23-36 | Versions move by at most two modulo 2^32; if the bytes of a file change its version differs, even under colliding qid paths; it grows iff the counter did not wrap. |
| AgentFsVersions.EffectVersions | crates/ap/src/version.rs:28-38 | A path's version advances once per marked file with that path. |
| AgentFsVersions.EffectShows | crates/agentfs/src/surface_state.rs:119-198 | A file that is not marked changed shows the same bytes. |
| AgentFsWrap.WrappedClonesOverwrite | crates/agentfs/src/lib.rs:440-463 | With the counter at its limit, two clones replace request `r0`. |
| AgentFsWrap.WrapReusesId | crates/agentfs/src/machine_projection.rs:36-84 | A run of six requests on a new server after which an existing request has been replaced. |
| AgentFsGuarantees.OpenGives | crates/agentfs/src/lib.rs:397-514 | On a server in order, an unopened handle is opened iff its file allows the mode: clones both ways only, the tape only while nobody holds it, and for writing only what takes writes; the new handle, its first buffer and the qid are given, a refusal changes nothing, and the server stays in order iff no counter wraps. |
| AgentFsGuarantees.CloneGives | crates/agentfs/src/lib.rs:440-487 | A clone hands out an id not in use; reading the clone gives that id, walking to it finds the new entry, and its status reads pending or running. |
| AgentFsGuarantees.ReadGives | crates/agentfs/src/lib.rs:516-549 | A handle open for reading serves its clone id, all of the tape, its stream or its file; others are refused. |
| AgentFsGuarantees.WriteGives | crates/agentfs/src/lib.rs:580-671 | Whatever the handle, what a write does: a buffered write is taken iff it ends within 1 or 16 MiB, and then exactly its bytes show at its offset, the rest as before and zeros in a gap; streams grow by the data; a command is one line of text; the control word cancels iff pending; the tape grows iff it comes through the lease, together with the checkpoint; the refusals change nothing. |
| AgentFsGuarantees.ClunkGives | crates/agentfs/src/lib.rs:713-860 | Releasing a handle drops exactly it. A written request field, action field or UI document is committed iff it is text and, for a request, that is pending, for an output, none was stored; that file then shows the written bytes, an answered request shows `answered`, and every other file shows what it did. An input message is framed. |
| AgentFsWrites.InputSentInPieces | crates/agentfs/src/lib.rs:635-738 | However a message is cut into pieces written one after the other through one fresh handle, and whatever others do in between, releasing the handle appends exactly the frame of that message. |
| AgentFsWrites.FieldSentInPieces | crates/agentfs/src/lib.rs:635-860 | Likewise a field sent in pieces is committed iff it is accepted at the release, and then shows exactly what was sent. |
| AgentFsProjection.RestoreGives | crates/agentfs/src/machine_projection.rs:36-84 | A restore succeeds iff its id is `r` and a number below the limit, its texts are within bounds, and the id is free or shows the same texts; a free id then shows them, pending and unanswered; otherwise nothing changes. |
| AgentFsProjection.EvaluationPublished | crates/agentfs/src/machine_projection.rs:10-32 | An evaluation is published iff it is an object of at most 1 MiB; its file shows it and no other file changes. |
| AgentFsProjection.WorkPublished | crates/agentfs/src/machine_projection.rs:87-103 | The same for the work document. |
| AgentFsTree.WalkGives | crates/agentfs/src/lib.rs:383-395 | A walk succeeds iff the new fid is unused, the old one bound and every name found; it binds the new fid, unopened, to the file whose key its names spell, and nothing else changes. |
| AgentFsTree.ChildSpelled | crates/agentfs/src/surface_state.rs:38-117 | The key of an entry is the key of its directory extended by its name. |
| AgentFsTree.PlaceExact | crates/agentfs/src/surface_state.rs:38-117 | Every existing file is found in one directory under one name and nowhere else. |
| AgentFsTree.DirectoriesExact | crates/agentfs/src/surface_state.rs:324-370 | What has kind directory is exactly what can be walked into. |
| AgentFsTree.KindsExact | crates/agentfs/src/surface_state.rs:324-370 | What is not read as a file is exactly the streams and the clones. |
| AgentFsTree.ListingExact | crates/agentfs/src/surface_state.rs:144-145 | The request and action directories list, one to a line, exactly the names that can be walked to. |
| AgentFsKeys.KeysDistinct | crates/agentfs/src/surface_state.rs:320-370 | In every state a run from no ids reaches, two files have the same key iff they are the same file, so only a hash collision can give them one qid path. |
| AgentFsEvents.StepTells | crates/agentfs/src/lib.rs:350-860 | Every stream grows by exactly the lines each request announces on it, on the scoped and the aggregate stream; nothing is dropped or reordered. |
| AgentFsEvents.ChangesAnnounced | crates/agentfs/src/lib.rs:350-860 | Whenever what a file shows changes, the aggregate stream has grown; an expiring output is the only exception. |
| ExpiryRecords.ExpiryReads | crates/agentfs/src/lib.rs:895-918 | Reading an expiry record as JSON gives back the path of the output and the cause iff neither holds a control character other than tab and line ends; otherwise the record is not JSON. |
| ExpiryRecords.StringReads | crates/agentfs/src/lib.rs:903-918 | The same for one escaped string, with anything after it. |
| AgentFsGuarantees.ExpireGives | crates/agentfs/src/lib.rs:319-348 | After an expiry every output reads as before, except the expired one, which reads as its record; the server stays in order. |
| AgentFsGuarantees.StaysInOrder | crates/agentfs/src/lib.rs:383-861 | Every request other than an open keeps the server in order. |
| AgentFsGuarantees.CheckpointGives | crates/agentfs/src/surface_state.rs:215-236 | The checkpoint file names, on one line, a stored root that materializes to the tape. |
| AgentFsGuarantees.NewServerShows | crates/agentfs/src/lib.rs:249-285 | A new server shows the documents it was made with; its streams are empty and nothing else exists. |
| AgentFsServer.Server.constructor | crates/agentfs/src/lib.rs:249-285 | The new object is the initial state, and valid. |
| AgentFsServer.Server.Walk | crates/agentfs/src/lib.rs:383-395 | Performs the walk step in place and keeps the server valid. |
| AgentFsServer.Server.Open | crates/agentfs/src/lib.rs:397-514 | Performs the open step in place; the outcome and the new handle are as `OpenGives` states; keeps the server valid iff no counter wraps; a clone hands out an entry that did not exist. |
| AgentFsServer.Server.ReadDocument | crates/agentfs/src/lib.rs:551-578 | Performs a finite read in place, refreshing the snapshot at offset 0, and keeps the server valid. |
| AgentFsServer.Server.Write | crates/agentfs/src/lib.rs:580-671 | Performs the write step in place; what it does to the buffer, the streams or the request is as `WriteGives` states; the tape grows by the data iff it comes through the lease, and stream and checkpoint agree afterwards. |
| AgentFsServer.Server.Clunk | crates/agentfs/src/lib.rs:713-861 | Performs the clunk step in place and drops exactly the handle; a written field is committed iff accepted and reads back, all other files read as before; an input message is appended as one frame. |
| AgentFsServer.Server.CancelRequest | crates/agentfs/src/request_control.rs:19-34 | Cancels in place exactly as the cancel step does. |
| AgentFsServer.Server.AppendTapeBlock | crates/agentfs/src/surface_state.rs:215-226 | Extends the checkpoint by one block in place. |
| AgentFsServer.Server.ExpireActionOutput | crates/agentfs/src/lib.rs:319-348 | Performs the expiry step in place, journal first; the tape and every other output read as before. |
| AgentFsServer.Server.RestorePendingRequest | crates/agentfs/src/machine_projection.rs:36-84 | Performs the restore step in place, raising the counter past the restored id; accepted and shown as `RestoreGives` states; keeps the server valid. |
| AgentFsServer.Server.PublishEvaluation | crates/agentfs/src/machine_projection.rs:10-32 | Performs the evaluation step in place; published iff a small enough object, and then shown; keeps the server valid. |
| AgentFsServer.Server.PublishWork | crates/agentfs/src/machine_projection.rs:87-103 | Performs the work step in place; published iff a small enough object, and then shown; keeps the server valid. |
| AgentFsServer.Server.CommitRequestField | crates/agentfs/src/lib.rs:739-773 | Commits one field of a request in place iff the value is text and the request pending: that field reads the value, a response settles the status, every other field and request stays; a refusal changes nothing. |
| AgentFsServer.Server.CommitActionField | crates/agentfs/src/lib.rs:775-812 | Commits one field of an action in place iff the value is text and, for the output, none was stored: that field reads the value, every other field and action stays; a refusal changes nothing. |
| AgentFsServer.Server.CommitUiDocument | crates/agentfs/src/lib.rs:813-860 | Stores a UI document in place iff it is text, skills always and as validated; other documents stay. |
| Knowledge.CollectGarbage | crates/knowledge/src/lib.rs:335-365 | Marking from the roots in any order and sweeping keeps exactly what some root reaches. |
| Knowledge.CollectSound | crates/knowledge/src/lib.rs:276-365 | Unbinding one root and collecting keeps the store sound and every other root reading the same bytes. |
| Knowledge.StoreBytesSound | crates/knowledge/src/lib.rs:180-275 | A stored document reads back exactly and disturbs no other root. |
| Knowledge.ForkAppendSound | crates/knowledge/src/lib.rs:215-275 | Appending to a root reads back the old bytes followed by the new ones and disturbs no other root. |
| Knowledge.AgreeReads | crates/knowledge/src/lib.rs:374-407 | Two stores that agree on a closed set of hashes materialize every node of it alike. |
| Knowledge.PathIrrelevant | crates/knowledge/src/lib.rs:374-407 | Cycle detection along different paths does not change what a readable node yields. |
| Frames.DecodePrefix | crates/agentfs/src/lib.rs:726-738 | Any prefix of a framed stream decodes to exactly the messages whose frames fit in it. |
| Frames.DecodeFramed | crates/agentfs/src/lib.rs:726-738 | Decoding inverts framing for arbitrary payload bytes. |
| Frames.Drain | crates/agentfs/src/lib.rs:726-738 | A reader that takes frames while it can ends with all messages and an incomplete rest. |
| OverlayHandles.HappenKeeps | crates/agentfs/src/root.rs:421-913 | Every step of every call, in any interleaving, keeps each live handle under exactly one owner. |
| OverlayHandles.HandleConservation | crates/agentfs/src/root.rs:653-710 | Once calls settle, the live handles are exactly those the fid table names plus the leaked ones, and no two fids share one. |
| OverlayHandles.LeaksExactly | crates/agentfs/src/root/namespace.rs:55-79 | Handles leak iff some listing's open or stat fails after its walk. |
| OverlayHandles.ConservationExactly | crates/agentfs/src/root.rs:898-913 | At rest the live handles are exactly the named ones iff no listing's open or stat failed. |
| OverlayLeak.LeakingRun | crates/agentfs/src/root/namespace.rs:55-79 | A concrete run after which a handle is live that nothing names. |
| OverlayHandles.LosingRacerReleases | crates/agentfs/src/root.rs:641-710 | A walk that loses the race for its fid leaves the table alone and releases its handle, whatever runs in between. |
| OverlayHandles.LosingCreateReleases | crates/agentfs/src/root.rs:574-639 | A create that loses the race leaves the table alone, and its handle goes with the rollback or, if that is refused, with the release after it. |
| OverlayCalls.ClunkReleases | crates/agentfs/src/root.rs:898-913 | Clunking a fid takes exactly that entry out of the table, and the next step of the call, whatever runs in between, releases what the entry held and nothing else. |
| OverlayCalls.ClunkNothing | crates/agentfs/src/root.rs:898-913 | Clunking the root or an unbound fid changes nothing. |
| OverlayCalls.CreateArrives | crates/agentfs/src/root.rs:574-639 | An undisturbed create binds its fid to a new file below its node, under a handle that was not live, iff the name is not one the overlay shows and the server makes it; otherwise nothing changes. |
| OverlayCalls.CreateRefused | crates/agentfs/src/root.rs:833-877 | A create over a fid in use changes nothing. |
| OverlayCalls.RegistrationArrives | crates/agentfs/src/root.rs:217-312 | An undisturbed registration ends with the process registered and every handle given back, whether or not its parent could be read. |
| OverlayCalls.ListingArrives | crates/agentfs/src/root.rs:541-554 | An undisturbed listing of an agent directory whose answers are good gives back both handles it took and leaks none. |
| OverlayCalls.ChildListingArrives | crates/agentfs/src/root.rs:556-572 | An undisturbed listing of any number of children looks at each through a handle of its own and keeps none. |
| OverlayCalls.NamesServed | crates/agentfs/src/root/namespace.rs:81-95 | Below an agent seven names lead to its process, `children` to its children and every other name to its own tree, of which exactly `io` and `children` are hidden. |
| OverlayCalls.CreatedIsSought | crates/agentfs/src/root/namespace.rs:93-95 | What can be created in an agent directory is what a walk by that name looks for in the tree, and nothing else can. |
| OverlayCalls.UnboundIsGone | crates/agentfs/src/root.rs:324-335 | An unregistered process is found neither by pid nor as `root`; every other name leads where it did. |
| OverlayCalls.BoundIsFound | crates/agentfs/src/root.rs:337-361 | A registered process is found by its pid, and as `root` once it is made the root. |
| OverlayWalk.WalkComposes | crates/agentfs/src/root.rs:421-516 | Walking a ++ b binds what walking a and then b binds, from all node kinds and through `children`, errors included. |
| OverlayWalk.ChildrenAreGenuine | crates/agentfs/src/root.rs:451-539 | A walk through `children` succeeds iff every step goes to a registered process whose parent is the previous one. |
| OverlayWalk.AgentTreeStepwise | crates/agentfs/src/surface_state.rs:38-117 | The agent file server itself walks stepwise, as the overlay theorem assumes of backing servers. |
| OverlayRefinement.WalkArrives | crates/agentfs/src/root.rs:653-710 | An undisturbed stepping walk, answered as a fixed world answers, binds exactly the node the walk function names, and nothing if that or the final qid query fails. |
| OverlayRefinement.LookupArrives | crates/agentfs/src/root.rs:341-373 | Looking up a name, checking its process and, under `children`, its parent leads where the walk function says. |
| BuildLeaseSafety.HappenKeeps | scripts/build_artifacts.py:48-352 | Every step of builders, cleaners and outsiders keeps lock exclusion and each process's holdings. |
| BuildLeaseSafety.LeaseExcludesClean | scripts/build_artifacts.py:171-208 | In every interleaving no cleaner works on an output that a builder holds, through the downgrade and for nested builds. |
| BuildLeaseOwnership.NothingAboveCleaned | scripts/build_artifacts.py:130-208 | In every interleaving no cleaner works on a path a builder holds, nor on any directory above it, whenever that directory's lock file appeared. |
| BuildLeaseOwnership.LiveLeaseProtects | scripts/build_artifacts.py:163-208 | So a live lease protects each of its roots and every directory above them. |
| BuildLeaseOwnership.HappenOwned | scripts/build_artifacts.py:130-208 | Every step keeps what is registered above a held path held, and cleaners on registered outputs. |
| BuildLeaseOwnership.ClaimOwned | scripts/build_artifacts.py:130-155 | Claiming an output, possible only where no lock file lies below it, upsets no other process. |
| BuildLeaseSafety.SameAdmission | scripts/build_artifacts.py:158-160 | At most one process is past the admission lock. |
| BuildLeaseProgress.CleanerWaits | scripts/build_artifacts.py:316-318 | A cleaner is admitted iff nobody is past the admission lock; otherwise it gives up holding nothing. |
| BuildLeaseProgress.CleanerStarts | scripts/build_artifacts.py:316-352 | An admitted cleaner starts to clean, holding the output alone, iff the output has a lock file that nobody holds; otherwise it gives up and lets the next one in. |
| BuildLeaseProgress.RootTaken | scripts/build_artifacts.py:130-196 | A root is taken alone iff nobody holds it, and then registered iff vacant with no lock file below; it is shared iff all holders share it and it is registered; otherwise the builder gives up. |
| BuildLeaseProgress.AboveTaken | scripts/build_artifacts.py:163-168 | A directory above a root is leased iff it has a lock file the builder lacks; it stops the builder iff held alone. |
| BuildLeaseProgress.LateFileLeased | scripts/build_artifacts.py:196-199 | A lock file that another repository creates above a root during the build is still leased by the second pass. |
| BuildLeaseProgress.LookTaken | scripts/build_artifacts.py:48-69 | A look at an output succeeds iff it has a lock file and the lock is free for it. |
| BuildLeaseProgress.BuildGoesLive | scripts/build_artifacts.py:171-208 | A build of any roots that nobody holds, left to itself, goes live with every root leased shared, the admission lock free again, and the roots with nothing below them registered. |
| BuildLeaseProgress.CleanGoesAhead | scripts/build_artifacts.py:316-352 | A registered output that nobody holds can be cleaned. |
| BuildLeaseProgress.CleaningReached | scripts/build_artifacts.py:171-352 | From nothing, any output can be built, left, and cleaned. |
| Retention.SemanticSpans | crates/agent-engine/src/tape.rs:687-706 | The spans partition the messages at exactly the user-turn boundaries. |
| Retention.TurnGrows | crates/agent-engine/src/tape.rs:708-719 | One control part anywhere makes a user message control input; without parts it is a turn. |
| Retention.AlignToToolBlock | crates/agent-engine/src/tape.rs:665-685 | A cut inside a tool block moves to the assistant message that owns it, else stays. |
| Retention.CompactionRetentionStart | crates/agent-engine/src/tape.rs:626-663 | The greedy backward scan over spans computes the declarative retention start. |
| Retention.GreedyIsEarliest | crates/agent-engine/src/tape.rs:626-663 | Where the greedy scan stops is the earliest span start within the budget. |
| Retention.RetentionWholeSpans | crates/agent-engine/src/tape.rs:626-663 | If the last span fits, the longest run of whole trailing spans within the budget is kept. |
| Retention.RetentionRawTail | crates/agent-engine/src/tape.rs:626-685 | Otherwise the raw tail is kept, extended back only to the owner of a split tool block and never out of the last span. |
| Retention.RetentionGrounded | crates/agent-engine/src/tape.rs:596-606 | Compaction never separates a tool result from its request. |
| ContextDiff.NormalizeContextItems | crates/agent-engine/src/tape.rs:753-758 | Every item ends with the fingerprint of its own fields. |
| ContextDiff.DiffContextItems | crates/agent-engine/src/tape.rs:760-814 | The two loops compute the diff of the indexed snapshots. |
| ContextDiff.IndexMeans | crates/agent-engine/src/tape.rs:760-775 | The index gives each id the fingerprint of its last item. |
| ContextDiff.ChangedMeans | crates/agent-engine/src/tape.rs:760-814 | A change is reported iff the id orders differ or some new item differs from the indexed one. |
| ContextDiff.DiffExact | crates/agent-engine/src/tape.rs:760-814 | The diff is exact against every new snapshot iff the old one gives each id one fingerprint. |
| ContextDiff.DiffIsMapDifference | crates/agent-engine/src/tape.rs:760-814 | With distinct ids the lists are the map differences, `reordered` means equal maps in another order, and the revision rises by one exactly on change until it saturates. |
| ContextDiff.FollowsExactly | crates/agent-engine/src/tape.rs:562-580 | A tape ends up holding every snapshot applied to it iff its items give each id one fingerprint and hold no line break. |
| ContextDiff.FollowsOn | crates/agent-engine/src/tape.rs:562-580 | A consistent tape follows exactly the snapshots that do not redivide the joined texts of its items. |
| ContextDiff.BrokenLags | crates/agent-engine/src/tape.rs:908-916 | Any line break in a held item lets some snapshot with other fields pass for unchanged, whatever the digest. |
| ContextDiff.UnbrokenKeeps | crates/agent-engine/src/tape.rs:908-916 | Items without line breaks, or kinds and titles without them on both sides, leave no room for that. |
| ContextDiff.LineBreakHidesChange | crates/agent-engine/src/tape.rs:908-916 | A literal snapshot that is taken for unchanged although its content differs. |
| Tape.Tape.PromptView | crates/agent-engine/src/tape.rs:482-516 | The view is context, summary, messages, and the cached estimate is the sum over exactly those messages. |
| Tape.Tape.Push | crates/agent-engine/src/tape.rs:518-521 | Appends one message and keeps every cache equal to recomputation. |
| Tape.Tape.Clear | crates/agent-engine/src/tape.rs:523-530 | Empties the tape and its caches. |
| Tape.Tape.Replace | crates/agent-engine/src/tape.rs:540-547 | Replaces the messages and recomputes their estimate. |
| Tape.Tape.ApplyContextItems | crates/agent-engine/src/tape.rs:562-580 | Diffs, and re-renders exactly on change; caches stay equal to recomputation. |
| Tape.Tape.SetSummary | crates/agent-engine/src/tape.rs:582-585 | Sets the summary and its estimate. |
| Tape.Tape.ClearSummary | crates/agent-engine/src/tape.rs:587-590 | Drops the summary and its estimate. |
| Tape.Tape.Compact | crates/agent-engine/src/tape.rs:596-606 | Keeps the retained tail, sets the summary, counts the compaction, keeps the caches. |
| Tape.RenderContextItems | crates/agent-engine/src/tape.rs:816-831 | One context message per item with content, and the sum of their estimates. |
| Tape.RenderedExact | crates/agent-engine/src/tape.rs:816-831 | Exactly the items with content that is not all white space are rendered, each once and in order, as trimmed title and content. |
| Tape.CompactedShows | crates/agent-engine/src/tape.rs:596-606 | After a compaction the prompt is the context, the new summary under its heading, and the kept messages. |
| Tape.RevisionRises | crates/agent-engine/src/tape.rs:562-580 | A snapshot that is taken up raises the revision by one, up to the 64-bit limit; any other leaves it and the items alone. |
| Messages.TokensEstimate | crates/agent-engine/src/tape.rs:833-900 | The estimate of a message counts every text in it, four characters to a token rounded up per text, plus 10 per attachment, 4 per tool call and 6. |
| Tape.PromptShowsSnapshot | crates/agent-engine/src/tape.rs:562-580 | With consistent items the prompt shows the applied snapshot whether or not a change was reported, unless the snapshot only redivides held texts, which it cannot without line breaks. |
| Machine.Machine.AddUserMessage | crates/agent-engine/src/agent_machine.rs:249-266 | Pushes a user message; the ordinal rises by one, saturating, iff it counts as a turn. |
| Machine.Machine.RollbackLastTurns | crates/agent-engine/src/agent_machine.rs:547-610 | The backward scan performs the rollback and reports min(n, turns) and the removed messages. |
| Machine.Machine.CompactTape | crates/agent-engine/src/agent_machine.rs:148-150 | Compacts the tape and nothing else. |
| Machine.CutMeans | crates/agent-engine/src/agent_machine.rs:563-584 | With enough turns the removed tail starts at a turn and holds exactly n; otherwise everything goes. |
| Machine.CutUnique | crates/agent-engine/src/agent_machine.rs:563-584 | The cut is determined by that meaning. |
| Machine.RollbackRemoves | crates/agent-engine/src/agent_machine.rs:547-610 | Rollback keeps a prefix, removes min(n, turns) turns, and leaves ordinal and context items alone. |
| Machine.RollbackComposes | crates/agent-engine/src/agent_machine.rs:547-610 | Two rollbacks equal one of the summed count iff it is not the case that the first removes exactly all turns, messages precede them, and the second asks for more. |
| Machine.RunGrounded | crates/agent-engine/src/agent_machine.rs:249-610 | In every run that adds tool results only as answers, compactions and rollbacks leave none orphaned, and the ordinal never falls. |
| Machine.OrdinalCounts | crates/agent-engine/src/agent_machine.rs:249-266 | Over every run the ordinal counts the user messages that count as turns, up to the 64-bit limit; nothing takes it back. |
| Machine.AddedShows | crates/agent-engine/src/agent_machine.rs:249-300 | A message added is shown at the end of the prompt, after all that was shown before. |
| Rollout.PersistItems | crates/agent-engine/src/rollout.rs:919-937 | The writer appends one line per item, in order. |
| Rollout.LoadHistory | crates/agent-engine/src/rollout.rs:838-895 | For any file: succeeds iff every line is valid UTF-8 that is blank or a record, or is the last of an unterminated file and cut short; the items are the records of all lines in order. Otherwise it names the first line that is invalid, unparsable, or cut short elsewhere. |
| Rollout.CrashRecovery | crates/agent-engine/src/rollout.rs:838-895 | Whatever prefix of the written file survives, loading returns exactly the records whose JSON is all there. |
| Rollout.SurvivorsMeans | crates/agent-engine/src/rollout.rs:919-937 | A record counts as surviving iff its JSON ends within the surviving bytes. |
| Rollout.LoadsWritten | crates/agent-engine/src/rollout.rs:838-937 | An uncut file gives back everything written. |
| Rollout.ReadCutJson | crates/agent-engine/src/rollout.rs:846-889 | A record cut short reads as torn, even inside a character. |
| Utf8.DecodeEncode | crates/agent-engine/src/rollout.rs:846-847 | Decoding undoes encoding for every text. |
| Utf8.PrefixOfText | crates/agent-engine/src/rollout.rs:848-856 | A cut of valid text is valid or incomplete, never invalid. |
| Utf8.EncodeDecode | crates/agent-engine/src/rollout.rs:846-847 | Valid bytes are exactly the encodings of texts, and decoding gives the text they encode. |
| Utf8.IncompleteMeans | crates/agent-engine/src/rollout.rs:848-856 | Bytes are incomplete iff they are not text but can be continued to text. |
| Text.TrimSplits | crates/agent-engine/src/rollout.rs:867 | Trimming takes away only white space, all of it, from the two ends. |
| ProcessResult.TerminalRoundTrip | crates/agent-protocol/src/process.rs:107-193 | After any preceding output, earlier records included, the appended record comes back iff it is one an executable can build (completed, paused or failed, version 1), else the matching error. |
| ProcessResult.AcceptedIsEmitted | crates/agent-protocol/src/process.rs:161-193 | Whatever the output, only such a record is ever accepted. |
| ProcessResult.LastPrefixOfRecord | crates/agent-protocol/src/process.rs:164-169 | The last marker found is the one that was appended. |
| ProcessResult.AbsentExactly | crates/agent-protocol/src/process.rs:164-168 | Nothing is found iff the marker occurs nowhere. |
| UserInput.PrefixRoundTrip | crates/agent-protocol/src/user_input.rs:20-28 | At most one mark is consumed and the rest kept; an intent and body can be spelt iff they are not ordinary input starting with a mark. |
| UserInput.PayloadRoundTrip | crates/agent-protocol/src/user_input.rs:61-97 | Exactly the records of version 1 with a UUID and a body that is not all white space can be sent, and each is received unchanged. |
| UserInput.NeverFallsBack | crates/agent-protocol/src/user_input.rs:84-97 | A payload of the record family is never read as plain text, and only such records are accepted. |
| UserInput.SubmissionsArrive | crates/agent-protocol/src/user_input.rs:75-97 | Over every server run that commits the payloads of records, draining the input stream gives back those records, and draining a part gives the first few. |
| UserInput.SingleRecordAgrees | crates/alan/examples/shadow_client_fixture.rs:461-474 | The single-frame reader accepts exactly the streams of one complete frame holding a record. |
| Paths.NormalizePathMatchValue | crates/agent-engine/src/policy.rs:644-675 | The loop over components performs the stack walk. |
| Paths.NormalizeShape | crates/agent-engine/src/policy.rs:644-675 | Results have proper segments, with `..` only in front and never under an absolute root. |
| Paths.WalkNormalForm | crates/agent-engine/src/policy.rs:652-668 | Relative components act on any stack as their normal form does. |
| Paths.WalkFixed | crates/agent-engine/src/policy.rs:652-668 | Normal forms are fixed points. |
| PathResolution.NormalizeRendered | crates/agent-engine/src/policy.rs:611-675 | Rendering and normalizing again gives the path back iff the rendered text has no white space at its ends. |
| PathResolution.ResolveExact | crates/agent-engine/src/policy.rs:629-641 | Resolving normal forms leads where the base and then the path lead iff the path does not end in white space and, for a relative text starting with some, the path steps back over the whole base and the trimmed first segment is still a name. |
| PathResolution.ResolveWalks | crates/agent-engine/src/policy.rs:629-641 | In terms of texts: the components of the base text are walked and then those of the path, under that exact condition. |
| PathResolution.NormalizeJoined | crates/agent-engine/src/policy.rs:644-675 | Normalizing two joined texts walks the components of both. |
| PathResolution.ResolveIsJoin | crates/agent-engine/src/policy.rs:629-675 | Resolving is normalizing the joined text, under the same exact condition, for every base. |
| PathResolution.BlankSegmentEscapes | crates/agent-engine/src/policy.rs:629-645 | A relative path resolved against a relative base can come out absolute. |
| PathResolution.BlankIsLost | crates/agent-engine/src/policy.rs:611-675 | A normal form that changes when it is normalized again. |
| PathResolution.NormalizeJoin | crates/agent-engine/src/policy.rs:644-675 | Normalizing joined components walks them with the first and the last trimmed. |
| PathResolution.TwoWalks | crates/agent-engine/src/policy.rs:652-668 | Two walks that differ in their first component differ by that component, or by steps up below everything else, depending on whether it is stepped back over. |
| Paths.PrefixMatchesMeans | crates/agent-engine/src/policy.rs:677-697 | The string comparison decides a segment relation: equal leading segments with a trailing separator, and without one a last segment that need only begin. |
| Paths.MatchesMeans | crates/agent-engine/src/policy.rs:579-627 | An absolute prefix matches leading segments of absolute paths, a relative one leading segments of relative paths or any run of segments in absolute ones, ignoring case. |
| Paths.CollectPathValues | crates/agent-engine/src/policy.rs:533-554 | The loops collect the strings under the keys, in order. |
| Paths.PathValuesMembers | crates/agent-engine/src/policy.rs:533-554 | A text is collected iff some key holds it, alone or in a list. |
| Paths.CollectPathCandidates | crates/agent-engine/src/policy.rs:501-531 | The candidates are exactly each text under the five path keys as given, and each relative one against the two directory keys and the current directory. |
| Paths.ArgumentsMatchPathPrefix | crates/agent-engine/src/policy.rs:489-499 | A rule's prefix matches iff some candidate does. |

## Left out

- Blocking reads of streams and event subscriptions: a stream read is modelled at the moment it can be served.
- `remove` on both file servers, and `stat`: a refusal, a bare forward and a view of what walk already returns.
- The identity, tag and in-use checks of the build script: they may only refuse, inside the section the locks protect.
- The deletion of a cleaned output with the lock files below it, and lock files removed by outsiders: lock files and receipts stay in the model.
- The rollout writer task, its queue and the recovery of a machine from items: only the bytes written and read back are modelled.
- The shift of transition-state indices after a compaction, and the recorder events of rollback and continuation.
- Redaction of evidence, policy file loading, capability and tool-name matching of policy rules: single-branch or heuristic code.
- Windows path prefixes: paths are those of Unix.
- Token estimates and compaction counts are unbounded naturals; machine-word overflow of the sums is not modelled.
- AgentFsRuns.ExpiryIsolated: does not model the journal's own records; the code journals an expiry before it finds that there is no output to drop, so a refused expiry may leave a journal entry.
- Machine.RunGrounded: assumes tool results are added only as answers, which the callers of the machine see to.
